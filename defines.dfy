/**
 * The internal message the Provider exchanges with its peer:
 * `{type, id?, name, payload?}`. The source spells the message type two
 * ways (a numeric enum in the provider, strings in the helper constructors);
 * here it is one closed type.
 */
module Messages {
  import opened JsValues

  datatype MessageType = Signal | Rpc | Internal

  /** An absent `id` or `payload` is `Undefined`. */
  datatype Message = Message(kind: MessageType, id: Value, name: string, payload: Value)

  /** A message handed to the dispatcher, with the transport context it was given (`Undefined` when none). */
  datatype Outbound = Outbound(message: Message, context: Value)
}
