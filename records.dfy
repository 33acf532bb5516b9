/** The records the client component keeps: emitters, listeners, log entries,
    and the messages the component sends on its socket. */
module Records {
  import opened Wrappers

  /** A payload as the component passes it around (TypeScript `any`), shaped like JSON,
      with `Undefined` for an absent argument. */
  datatype Value =
    | Undefined
    | Null
    | Bool(b: bool)
    | Num(n: int)
    | Str(s: string)
    | Arr(items: seq<Value>)
    | Obj(fields: seq<(string, Value)>)

  /** Direction of a log entry: sent by this client, or received from the server. */
  datatype EventType = Emit | Listen

  /** An inbound subscription: the event name, a display colour and an optional formatter. */
  datatype Listener = Listener(event: string, color: Option<string>, customFormater: Option<Value -> string>)

  /** An outbound message template: the event name, a fixed payload and a display colour. */
  datatype Emiter = Emiter(event: string, payload: Value, color: Option<string>)

  /** One entry of the event log. */
  datatype Event = Event(eventType: EventType, event: string, message: string, payload: Value, color: Option<string>)

  /** A message sent on the socket: an event name and its payload. */
  datatype Message = Message(event: string, payload: Value)

  function EmiterName(e: Emiter): string { e.event }

  function ListenerName(l: Listener): string { l.event }
}
