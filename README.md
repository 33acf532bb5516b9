# Event registry and event log of the socket.io test client

This project models, in Dafny, the core of the `Client` component of a desktop
socket.io test client: the registry of **emitters** (named outbound message
templates), the registry of **listeners** (named inbound subscriptions, each bound
to a socket callback when registered), and the **event log** of what was sent and
received, kept newest first.

The component's state becomes the class `ClientComponent.Client`:

- `emiters`, `listeners` and `events` are `seq` fields. The component replaces them
  with `setEmiters`, `setListeners` and `setEvents`; the model's methods reassign them.
- The socket is represented by two ghost fields. `subscriptions` lists the event
  names the socket runs one of this component's callbacks for. `sent` lists the
  messages emitted on it.
- The ghost field `history` holds every log entry, oldest first.

The object invariant `Valid()` states the component's invariants:

- emitter names are distinct;
- listener names are distinct;
- the socket's subscriptions are exactly the listener names, in registration order;
- every message sent on the socket has an `emit` entry with the same name and payload, in the same order;
- the log is the history reversed, so the newest entry comes first.

Every operation keeps `Valid()`, except the internal `AddEvent`, which keeps
`LogValid()`. Each operation's `modifies` clause names the fields it may change,
so it promises that every other field is unchanged.

The records (`Emiter`, `Listener`, `Event`, `EventType`) are datatypes in
`records.dfy`. A payload is a JSON-like `Value` with an `Undefined` case. The
message text of log entries and its inverse parsers are in `format.dfy`. The
sequence functions and lemmas the invariants use are in `sequences.dfy`.

Two behaviours are kept as the code has them:

- The emit message is spelled `"Emited <name>"`, as the code writes it.
- A received `undefined` payload is rendered as `"undefined"`, with no "none" marker.
  `JSON.stringify(undefined)` returns `undefined`, and the template literal prints that value as "undefined".

## Model

| member | source | states |
|---|---|---|
| `Sequences.Find` | app/components/client/Client.tsx:115 | `find` by name: returns nothing exactly when no element has that name, and otherwise the first element that has it |
| `ClientComponent.Client.constructor` | app/components/client/Client.tsx:82-86 | the component starts with no emitters, no listeners, an empty log and an untouched socket, and the invariant holds |
| `ClientComponent.Client.AddEmiter` | app/components/client/Client.tsx:114-122 | a name already registered throws "Emiter already defined" and changes nothing; a fresh name appends exactly `Emiter(event, payload, color)` at the end; listeners, log and socket are untouched; names stay distinct |
| `ClientComponent.Client.AddListener` | app/components/client/Client.tsx:124-134 | a name already registered throws "Listener already defined" before any subscription, so listeners and socket are unchanged; a fresh name adds exactly one subscription for that name, then appends the listener at the end; the log is untouched |
| `ClientComponent.Client.HandleListenerIncoming` | app/components/client/Client.tsx:136-142 | exactly one `listen` entry, for the listener's name with the received payload and the listener's colour, is put at the front of the log; registries and socket are untouched |
| `ClientComponent.Client.RunEmiter` | app/components/client/Client.tsx:144-148 | exactly one message (emitter name, emitter payload) is sent, and exactly one `emit` entry is put at the front of the log; registries are untouched |
| `ClientComponent.Client.AddEvent` | app/components/client/Client.tsx:150-154 | the new entry is at index 0 and the previous log follows it unchanged |
| `ClientComponent.Client.Deliver` | app/components/client/Client.tsx:131 | a message for a subscribed name runs that listener's callback and logs one `listen` entry for it; a message for any other name changes nothing |
| `ClientComponent.Client.Seed` | app/components/client/Client.tsx:93-107 | the seed registrations succeed exactly when the seed emitter names and the seed listener names stay distinct from the registered ones; on success exactly the seed emitters and seed listeners are added; a refused emitter fails with "Emiter already defined", leaves the emitters before it registered and adds no listener; a refused listener fails with "Listener already defined" after all seed emitters and the listeners before it are registered; on a freshly mounted component the seed always succeeds |
| `ClientComponent.Client.AddEmiterSeeds` | app/components/client/Client.tsx:94-100 | emitters are registered in order, and the first duplicate stops the sequence; the call passes exactly when all names stay distinct; on failure the emitters before the duplicate are registered and the duplicate's name is already present |
| `ClientComponent.Client.AddListenerSeeds` | app/components/client/Client.tsx:102-106 | the same for listeners: in order, stop at the first duplicate, pass exactly when all names stay distinct |
| `ClientComponent.SeedNamesDistinct` | app/components/client/Client.tsx:94-106 | the four seed emitter names are pairwise distinct, and so are the five seed listener names |
| `ClientComponent.Client.EmiterNamesUnique` | app/components/client/Client.tsx:114-121 | in any reachable state each registered emitter name is held by exactly one emitter |
| `ClientComponent.Client.SubscribedOnce` | app/components/client/Client.tsx:124-133 | in any reachable state each listener name has exactly one subscription on the socket, and no other name has one |
| `ClientComponent.Client.LogNewestFirst` | app/components/client/Client.tsx:150-154 | log entry k is the k-th most recent entry, so after entries e1..eN the log reads eN..e1 |
| `Format.EmitEntryNamesEmiter` | app/components/client/Client.tsx:144-148 | the message of an `emit` entry is "Emited " followed by the emitter's name, and parses back to exactly that name |
| `Format.ListenEntryFormats` | app/components/client/Client.tsx:136-141 | with a formatter the message of a `listen` entry is the formatter's text; without one it starts with `Received <name> ` and the rest is the serialized payload ("undefined" for an absent payload) |
| `Sequences.ReverseAppend` | app/components/client/Client.tsx:153 | prepending to the log matches appending to the oldest-first history |
| `Sequences.ReverseAt` | app/components/client/Client.tsx:153 | the reversed history's k-th element is the k-th from the end |
| `Sequences.DistinctAppend` | app/components/client/Client.tsx:115-121 | appending a name keeps a list of names distinct exactly when the name is not already in it |
| `Sequences.OccursOnce` | app/components/client/Client.tsx:114-127 | in a list of distinct names every name occurs once if at all |

## Left out

- Opening the socket.io connection from the `url` prop, the 1000 ms timer before seeding, and `disconnect` on unmount (lines 88-112). These are network I/O and scheduling. `Seed` is the timer's callback, run as a plain method.
- Seed calls: the source makes nine separate calls (lines 94-106). The model runs `AddEmiterSeeds` over the four seed emitters and then `AddListenerSeeds` over the five seed listeners. The calls, their order and the stop at the first throw are the same.
- Stale closures: the source's `addEmiter` and `addListener` check the lists captured at render time (lines 115 and 125), not the latest state. The model checks the current lists. React's `useState` and `useRef` mechanics are not modelled.
- `JSON.stringify` and custom formatters are function values. `stringify` is a constant of the client, and each formatter is held in its `Listener`. Their text is not modelled, and an exception thrown by a formatter is not modelled.
- The socket keeps two separate lists: subscriptions and sent messages. The order of a subscription relative to a send is therefore not recorded. Messages from the server are modelled only as the callback running (`Deliver`), not as a trace.
- Payload numbers are modelled as `int`. JavaScript's floating-point numbers are not modelled.
- Calling `addListener` or `runEmiter` before the socket exists would throw in the source. This is not modelled: the model starts with the socket in place.
- The JSX rendering, the Material-UI tables and buttons, `useStyles`, the inert edit and add buttons, the unused `axios` import, and `app/containers/HomePage.tsx`. These are presentation only.
