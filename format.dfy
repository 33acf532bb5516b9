/** The messages written into the event log, and the log entries built from them. */
module Format {
  import opened Wrappers
  import opened Records

  const EmitedPrefix := "Emited "
  const ReceivedPrefix := "Received "

  /** What the template literal prints for `JSON.stringify(data, null, 2)`: the serializer's
      text, except that `JSON.stringify(undefined)` is itself `undefined`, printed as "undefined". */
  function Stringified(stringify: Value -> string, data: Value): string {
    if data.Undefined? then "undefined" else stringify(data)
  }

  /** The message logged when `listener` receives `data`. */
  function ListenMessage(listener: Listener, data: Value, stringify: Value -> string): string {
    match listener.customFormater
    case Some(format) => format(data)
    case None => ReceivedPrefix + listener.event + " " + Stringified(stringify, data)
  }

  /** The `listen` entry logged when `listener` receives `data`. */
  function ListenEntry(listener: Listener, data: Value, stringify: Value -> string): Event {
    Event(Listen, listener.event, ListenMessage(listener, data, stringify), data, listener.color)
  }

  /** The message logged when `emiter` is run. */
  function EmitMessage(emiter: Emiter): string {
    EmitedPrefix + emiter.event
  }

  /** The `emit` entry logged when `emiter` is run. */
  function EmitEntry(emiter: Emiter): Event {
    Event(Emit, emiter.event, EmitMessage(emiter), emiter.payload, emiter.color)
  }

  /** The event name an `emit` message is about, if `message` has that shape. */
  function EmitedName(message: string): (r: Option<string>)
    ensures r.Some? ==> EmitedPrefix + r.value == message
  {
    if |EmitedPrefix| <= |message| && message[..|EmitedPrefix|] == EmitedPrefix
    then Some(message[|EmitedPrefix|..]) else None
  }

  /** The serialized payload a default `listen` message about `name` carries, if `message`
      has that shape. */
  function ReceivedText(message: string, name: string): (r: Option<string>)
    ensures r.Some? ==> ReceivedPrefix + name + " " + r.value == message
  {
    var head := ReceivedPrefix + name + " ";
    if |head| <= |message| && message[..|head|] == head
    then Some(message[|head|..]) else None
  }

  /** The message of an emit entry parses back to the emitter's name. */
  lemma EmitEntryNamesEmiter(emiter: Emiter)
    ensures EmitedName(EmitEntry(emiter).message) == Some(emiter.event)
  {
    var m := EmitMessage(emiter);
    assert m[..|EmitedPrefix|] == EmitedPrefix;
    assert m[|EmitedPrefix|..] == emiter.event;
  }

  /** The message of a listen entry is the formatter's text when there is a formatter, and
      otherwise starts with "Received <name> " followed by the serialized payload. */
  lemma ListenEntryFormats(listener: Listener, data: Value, stringify: Value -> string)
    ensures listener.customFormater.Some? ==>
              ListenEntry(listener, data, stringify).message == listener.customFormater.value(data)
    ensures listener.customFormater.None? ==>
              ReceivedText(ListenEntry(listener, data, stringify).message, listener.event)
              == Some(if data.Undefined? then "undefined" else stringify(data))
  {
    if listener.customFormater.None? {
      var head := ReceivedPrefix + listener.event + " ";
      var m := ListenMessage(listener, data, stringify);
      assert m == head + Stringified(stringify, data);
      assert m[..|head|] == head;
      assert m[|head|..] == Stringified(stringify, data);
    }
  }
}
