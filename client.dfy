/** The client component's state: the emitter and listener registries and the event log,
    together with what the component has done to its socket. */
module ClientComponent {
  import opened Wrappers
  import opened Records
  import opened Sequences
  import opened Format

  const EmiterAlreadyDefined := "Emiter already defined"
  const ListenerAlreadyDefined := "Listener already defined"

  /** The emitters registered when the component mounts, for a client with the given id. */
  function SeedEmiters(id: int): seq<Emiter> {
    [ Emiter("client-connect", Undefined, None),
      Emiter("join-room", Obj([("userId", Num(id))]), None),
      Emiter("writing-message", Undefined, None),
      Emiter("send-message", Obj([("message", Str("e ai")), ("type", Str("text"))]), None) ]
  }

  /** The listeners registered when the component mounts, none with a formatter or a colour. */
  const SeedListeners: seq<Listener> :=
    [ Listener("total-online", None, None),
      Listener("user-joined", None, None),
      Listener("user-leaved", None, None),
      Listener("user-writing-message", None, None),
      Listener("user-send-message", None, None) ]

  /** The name and payload of an `emit` entry. */
  function EmittedMessage(e: Event): Option<Message> {
    if e.eventType == Emit then Some(Message(e.event, e.payload)) else None
  }

  /** The name and payload of every `emit` entry, in logging order. */
  function Emitted(history: seq<Event>): seq<Message> {
    FilterMap(history, EmittedMessage)
  }

  /** Logging an `emit` entry for `emiter` extends the emitted messages by its message. */
  lemma EmittedAfterEmit(history: seq<Event>, emiter: Emiter)
    ensures Emitted(history + [EmitEntry(emiter)]) == Emitted(history) + [Message(emiter.event, emiter.payload)]
  {
  }

  /** Logging a `listen` entry leaves the emitted messages as they were. */
  lemma EmittedAfterListen(history: seq<Event>, listener: Listener, data: Value, stringify: Value -> string)
    ensures Emitted(history + [ListenEntry(listener, data, stringify)]) == Emitted(history)
  {
  }

  /** The seed names are distinct among themselves. */
  lemma SeedNamesDistinct(id: int)
    ensures Distinct(Names(SeedEmiters(id), EmiterName))
    ensures Distinct(Names(SeedListeners, ListenerName))
  {
    assert Names(SeedEmiters(id), EmiterName) == ["client-connect", "join-room", "writing-message", "send-message"];
    assert Names(SeedListeners, ListenerName) ==
           ["total-online", "user-joined", "user-leaved", "user-writing-message", "user-send-message"];
  }

  class Client {
    /** `JSON.stringify(_, null, 2)`, whose text is not modelled. */
    const stringify: Value -> string
    var emiters: seq<Emiter>
    var listeners: seq<Listener>
    /** The event log, newest entry first. */
    var events: seq<Event>
    /** The event names the socket runs a callback of this component for, in subscription order. */
    ghost var subscriptions: seq<string>
    /** The messages sent on the socket, oldest first. */
    ghost var sent: seq<Message>
    /** Every log entry, oldest first. */
    ghost var history: seq<Event>

    /** Emitter names are unique. */
    ghost predicate EmitersValid()
      reads this`emiters
    {
      Distinct(Names(emiters, EmiterName))
    }

    /** Listener names are unique, and the socket holds one subscription per listener,
        in registration order. */
    ghost predicate ListenersValid()
      reads this`listeners, this`subscriptions
    {
      && Distinct(Names(listeners, ListenerName))
      && subscriptions == Names(listeners, ListenerName)
    }

    /** Every message sent on the socket is logged as an `emit` entry, in the same order. */
    ghost predicate SentValid()
      reads this`history, this`sent
    {
      Emitted(history) == sent
    }

    /** The event log is the history, newest first. */
    ghost predicate LogValid()
      reads this`events, this`history
    {
      events == Reverse(history)
    }

    ghost predicate Valid()
      reads this
    {
      EmitersValid() && ListenersValid() && SentValid() && LogValid()
    }

    /** The component as it first renders: empty registries, an empty log, a fresh socket. */
    constructor (stringify: Value -> string)
      ensures Valid()
      ensures this.stringify == stringify
      ensures emiters == [] && listeners == [] && events == []
      ensures subscriptions == [] && sent == [] && history == []
    {
      this.stringify := stringify;
      emiters, listeners, events := [], [], [];
      subscriptions, sent, history := [], [], [];
    }

    /** The registrations run once the socket is open, for a client with the given id: the
        seed emitters, then the seed listeners. A refused registration throws, which ends the
        sequence there. */
    method Seed(id: int) returns (o: Outcome<string>)
      requires Valid()
      modifies this`emiters, this`listeners, this`subscriptions
      ensures Valid()
      ensures o.Pass? <==> Distinct(Names(old(emiters) + SeedEmiters(id), EmiterName)) &&
                           Distinct(Names(old(listeners) + SeedListeners, ListenerName))
      ensures o.Pass? ==> emiters == old(emiters) + SeedEmiters(id) && listeners == old(listeners) + SeedListeners
      ensures o.Fail? ==>
                || (&& o == Fail(EmiterAlreadyDefined) && listeners == old(listeners)
                    && exists k :: 0 <= k < |SeedEmiters(id)| && emiters == old(emiters) + SeedEmiters(id)[..k])
                || (&& o == Fail(ListenerAlreadyDefined) && emiters == old(emiters) + SeedEmiters(id)
                    && exists k :: 0 <= k < |SeedListeners| && listeners == old(listeners) + SeedListeners[..k])
      ensures old(emiters) == [] && old(listeners) == [] ==> o.Pass?
    {
      SeedNamesDistinct(id);
      o := AddEmiterSeeds(SeedEmiters(id));
      if o.Fail? {
        return;
      }
      o := AddListenerSeeds(SeedListeners);
    }

    /** Registers each emitter of `seeds` in order, up to the first refused one. */
    method AddEmiterSeeds(seeds: seq<Emiter>) returns (o: Outcome<string>)
      requires Valid()
      modifies this`emiters
      ensures Valid()
      ensures o.Pass? <==> Distinct(Names(old(emiters) + seeds, EmiterName))
      ensures o.Pass? ==> emiters == old(emiters) + seeds
      ensures o.Fail? ==> o == Fail(EmiterAlreadyDefined) &&
                          exists k :: 0 <= k < |seeds| && emiters == old(emiters) + seeds[..k] &&
                                      seeds[k].event in Names(emiters, EmiterName)
    {
      ghost var all := old(emiters) + seeds;
      o := Pass;
      for i := 0 to |seeds|
        invariant Valid() && o == Pass
        invariant emiters == old(emiters) + seeds[..i] == all[..|old(emiters)| + i]
      {
        var seed := seeds[i];
        assert all[|old(emiters)| + i] == seed;
        DistinctNamesStep(all, EmiterName, |old(emiters)| + i);
        o := AddEmiter(seed.event, seed.payload, seed.color);
        if o.Fail? {
          assert seed.event in Names(all[..|old(emiters)| + i], EmiterName);
          return;
        }
        assert seeds[..i + 1] == seeds[..i] + [seed];
      }
      assert all == emiters;
    }

    /** Registers each listener of `seeds` in order, up to the first refused one. */
    method AddListenerSeeds(seeds: seq<Listener>) returns (o: Outcome<string>)
      requires Valid()
      modifies this`listeners, this`subscriptions
      ensures Valid()
      ensures o.Pass? <==> Distinct(Names(old(listeners) + seeds, ListenerName))
      ensures o.Pass? ==> listeners == old(listeners) + seeds
      ensures o.Fail? ==> o == Fail(ListenerAlreadyDefined) &&
                          exists k :: 0 <= k < |seeds| && listeners == old(listeners) + seeds[..k] &&
                                      seeds[k].event in Names(listeners, ListenerName)
    {
      ghost var all := old(listeners) + seeds;
      o := Pass;
      for i := 0 to |seeds|
        invariant Valid() && o == Pass
        invariant listeners == old(listeners) + seeds[..i] == all[..|old(listeners)| + i]
      {
        var seed := seeds[i];
        assert all[|old(listeners)| + i] == seed;
        DistinctNamesStep(all, ListenerName, |old(listeners)| + i);
        o := AddListener(seed.event, seed.customFormater, seed.color);
        if o.Fail? {
          assert seed.event in Names(all[..|old(listeners)| + i], ListenerName);
          return;
        }
        assert seeds[..i + 1] == seeds[..i] + [seed];
      }
      assert all == listeners;
    }

    /** Registers an emitter, unless one with that name exists. */
    method AddEmiter(event: string, payload: Value, color: Option<string>) returns (o: Outcome<string>)
      requires Valid()
      modifies this`emiters
      ensures Valid()
      ensures o == if event in Names(old(emiters), EmiterName) then Fail(EmiterAlreadyDefined) else Pass
      ensures emiters == if o.Pass? then old(emiters) + [Emiter(event, payload, color)] else old(emiters)
    {
      if Find(emiters, EmiterName, event).Some? {
        return Fail(EmiterAlreadyDefined);
      }
      var emiter := Emiter(event, payload, color);
      NamesAppend(emiters, EmiterName, emiter);
      DistinctAppend(Names(emiters, EmiterName), event);
      emiters := emiters + [emiter];
      o := Pass;
    }

    /** Registers a listener, unless one with that name exists: subscribes its callback on
        the socket, then appends it. */
    method AddListener(event: string, customFormater: Option<Value -> string>, color: Option<string>)
      returns (o: Outcome<string>)
      requires Valid()
      modifies this`listeners, this`subscriptions
      ensures Valid()
      ensures o == if event in Names(old(listeners), ListenerName) then Fail(ListenerAlreadyDefined) else Pass
      ensures subscriptions == if o.Pass? then old(subscriptions) + [event] else old(subscriptions)
      ensures listeners == if o.Pass? then old(listeners) + [Listener(event, color, customFormater)]
                           else old(listeners)
    {
      if Find(listeners, ListenerName, event).Some? {
        return Fail(ListenerAlreadyDefined);
      }
      var listener := Listener(event, color, customFormater);
      subscriptions := subscriptions + [event];
      NamesAppend(listeners, ListenerName, listener);
      DistinctAppend(Names(listeners, ListenerName), event);
      listeners := listeners + [listener];
      o := Pass;
    }

    /** The callback bound to `listener`: logs a `listen` entry for `data`. */
    method HandleListenerIncoming(listener: Listener, data: Value)
      requires Valid()
      modifies this`events, this`history
      ensures Valid()
      ensures history == old(history) + [ListenEntry(listener, data, stringify)]
      ensures events == [ListenEntry(listener, data, stringify)] + old(events)
    {
      EmittedAfterListen(history, listener, data, stringify);
      var message := ListenMessage(listener, data, stringify);
      AddEvent(Listen, listener.event, data, message, listener.color);
    }

    /** Sends the emitter's message on the socket and logs an `emit` entry. */
    method RunEmiter(emiter: Emiter)
      requires Valid()
      modifies this`sent, this`events, this`history
      ensures Valid()
      ensures sent == old(sent) + [Message(emiter.event, emiter.payload)]
      ensures history == old(history) + [EmitEntry(emiter)]
      ensures events == [EmitEntry(emiter)] + old(events)
    {
      sent := sent + [Message(emiter.event, emiter.payload)];
      EmittedAfterEmit(history, emiter);
      AddEvent(Emit, emiter.event, emiter.payload, EmitMessage(emiter), emiter.color);
    }

    /** Puts a new entry at the front of the log. */
    method AddEvent(eventType: EventType, event: string, payload: Value, message: string, color: Option<string>)
      requires LogValid()
      modifies this`events, this`history
      ensures LogValid()
      ensures history == old(history) + [Event(eventType, event, message, payload, color)]
      ensures events == [Event(eventType, event, message, payload, color)] + old(events)
    {
      var newEvent := Event(eventType, event, message, payload, color);
      ReverseAppend(history, newEvent);
      history := history + [newEvent];
      events := [newEvent] + events;
    }

    /** The socket delivering `data` for `event`: the callback subscribed for that name runs,
        if there is one. */
    method Deliver(event: string, data: Value)
      requires Valid()
      modifies this`events, this`history
      ensures Valid()
      ensures event !in subscriptions ==> history == old(history) && events == old(events)
      ensures event in subscriptions ==>
                exists i :: 0 <= i < |listeners| && listeners[i].event == event &&
                            history == old(history) + [ListenEntry(listeners[i], data, stringify)] &&
                            events == [ListenEntry(listeners[i], data, stringify)] + old(events)
    {
      var found := Find(listeners, ListenerName, event);
      if found.Some? {
        HandleListenerIncoming(found.value, data);
      }
    }

    /** The log holds the history newest first: entry k is the k-th most recent. */
    lemma LogNewestFirst(k: nat)
      requires Valid() && k < |events|
      ensures events[k] == history[|history| - 1 - k]
    {
      ReverseAt(history, k);
    }

    /** Each registered emitter name is held by exactly one emitter. */
    lemma EmiterNamesUnique(name: string)
      requires Valid()
      ensures multiset(Names(emiters, EmiterName))[name] == if name in Names(emiters, EmiterName) then 1 else 0
    {
      OccursOnce(Names(emiters, EmiterName), name);
    }

    /** Each listener's name is subscribed exactly once, and no other name is subscribed. */
    lemma SubscribedOnce(name: string)
      requires Valid()
      ensures multiset(subscriptions)[name] == if name in Names(listeners, ListenerName) then 1 else 0
    {
      OccursOnce(subscriptions, name);
    }
  }
}
