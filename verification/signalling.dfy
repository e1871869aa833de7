/**
 The event-handler registry of the abstract `Signalling` class: a multimap
 from one of four event names to the handlers registered for it, in
 registration order. Handlers are opaque tokens of type `H`; dispatching an
 event yields the sequence of tokens invoked.
 */
module Signalling {
  import opened Outcomes

  /** The event names a signalling channel dispatches, and only these. */
  datatype EventName = Offer | Answer | NewCandidate | PeerList

  /** Handler lists keyed by event name; a name nobody registered for is absent. */
  type HandlerTable<H> = map<EventName, seq<H>>

  /** The handler list of `name`, or the empty list `on` falls back to. */
  function Registered<H>(t: HandlerTable<H>, name: EventName): seq<H>
  {
    if name in t then t[name] else []
  }

  /** The table a channel starts from: no event name has a list yet. */
  function Empty<H>(): HandlerTable<H>
  {
    map[]
  }

  /**
   Registers `h` for `name`: an absent list is created empty first, then `h`
   goes to its end. Duplicates are kept, and the other names are untouched.
   */
  function On<H>(t: HandlerTable<H>, name: EventName, h: H): (t': HandlerTable<H>)
    ensures t'.Keys == t.Keys + {name}
    ensures |t'[name]| == |Registered(t, name)| + 1
    ensures Registered(t, name) <= t'[name]
    ensures t'[name][|t'[name]| - 1] == h
    ensures forall n :: n != name && n in t ==> t'[n] == t[n]
  {
    t[name := Registered(t, name) + [h]]
  }

  /** `On` as a sequence equation: the list of `name` grows by exactly `h` at its end. */
  lemma OnAppends<H>(t: HandlerTable<H>, name: EventName, h: H)
    ensures Registered(On(t, name, h), name) == Registered(t, name) + [h]
    ensures forall n :: n != name ==> Registered(On(t, name, h), n) == Registered(t, n)
  {
    var t' := On(t, name, h);
    assert Registered(t', name) == t'[name];
    assert t'[name] == Registered(t, name) + [h];
  }

  /**
   Invokes every handler registered for `name`, one at a time in registration
   order, and returns the handlers invoked. The table is a value, so the call
   cannot change it. For a name with no list, `dispatch` calls `forEach` on
   `undefined`, hence the precondition.
   */
  method Dispatch<H>(t: HandlerTable<H>, name: EventName) returns (invoked: seq<H>)
    requires name in t
    ensures |invoked| == |t[name]|
    ensures forall i :: 0 <= i < |invoked| ==> invoked[i] == t[name][i]
  {
    var handlers := t[name];
    invoked := [];
    var i := 0;
    while i < |handlers|
      invariant i <= |handlers|
      invariant invoked == handlers[..i]
    {
      invoked := invoked + [handlers[i]];
      i := i + 1;
    }
  }

  /** The effect of a run of `on` calls, made in the order of `regs`. */
  function OnAll<H>(t: HandlerTable<H>, regs: seq<(EventName, H)>): HandlerTable<H>
    decreases |regs|
  {
    if regs == [] then t else OnAll(On(t, regs[0].0, regs[0].1), regs[1..])
  }

  /** Reference definition: the handlers of `regs` made for `name`, in the order made. */
  function HandlersFor<H>(regs: seq<(EventName, H)>, name: EventName): seq<H>
    decreases |regs|
  {
    if regs == [] then []
    else (if regs[0].0 == name then [regs[0].1] else []) + HandlersFor(regs[1..], name)
  }

  /**
   After any run of registrations, the list of each name is its earlier list
   followed by exactly the handlers registered for that name, each once per
   registration, in registration order; the name has a list iff it had one
   before or somebody registered for it.
   */
  lemma {:induction false} OnAllAppendsInOrder<H>(t: HandlerTable<H>, regs: seq<(EventName, H)>, name: EventName)
    ensures Registered(OnAll(t, regs), name) == Registered(t, name) + HandlersFor(regs, name)
    ensures name in OnAll(t, regs) <==> name in t || HandlersFor(regs, name) != []
    decreases |regs|
  {
    if regs != [] {
      var t1 := On(t, regs[0].0, regs[0].1);
      var rest := HandlersFor(regs[1..], name);
      var here := if regs[0].0 == name then [regs[0].1] else [];
      OnAllStep(t, regs);
      HandlersForStep(regs, name);
      OnAllAppendsInOrder(t1, regs[1..], name);
      RegistrationStep(t, regs[0].0, regs[0].1, name, rest);
    }
  }

  /** One registration followed by the rest, as used by `OnAllAppendsInOrder`. */
  lemma RegistrationStep<H>(t: HandlerTable<H>, n: EventName, h: H, name: EventName, rest: seq<H>)
    ensures var here := if n == name then [h] else [];
      && Registered(On(t, n, h), name) + rest == Registered(t, name) + (here + rest)
      && (name in On(t, n, h) || rest != [] <==> name in t || here + rest != [])
  {
    OnAppends(t, n, h);
    var here := if n == name then [h] else [];
    assert |here + rest| == |here| + |rest|;
  }

  lemma OnAllStep<H>(t: HandlerTable<H>, regs: seq<(EventName, H)>)
    requires regs != []
    ensures OnAll(t, regs) == OnAll(On(t, regs[0].0, regs[0].1), regs[1..])
  {
  }

  lemma HandlersForStep<H>(regs: seq<(EventName, H)>, name: EventName)
    requires regs != []
    ensures HandlersFor(regs, name) == (if regs[0].0 == name then [regs[0].1] else []) + HandlersFor(regs[1..], name)
  {
  }

  /**
   Starting from the empty table, after a run of registrations the list of
   `name` (the list `Dispatch` walks) is exactly the handlers registered for
   `name`, in the order they were registered, and the name has a list (the
   `Dispatch` precondition) exactly when at least one was.
   */
  lemma EmptyTableRegistersInOrder<H>(regs: seq<(EventName, H)>, name: EventName)
    ensures name in OnAll(Empty(), regs) <==> HandlersFor(regs, name) != []
    ensures Registered(OnAll(Empty(), regs), name) == HandlersFor(regs, name)
  {
    OnAllAppendsInOrder(Empty(), regs, name);
    assert Registered(Empty<H>(), name) == [];
  }

  /** Registering the same handler twice leaves it in the list twice: nothing is deduplicated. */
  lemma NoDeduplication<H>(t: HandlerTable<H>, name: EventName, h: H)
    ensures Registered(On(On(t, name, h), name, h), name) == Registered(t, name) + [h, h]
    ensures multiset(Registered(On(On(t, name, h), name, h), name))[h]
         == multiset(Registered(t, name))[h] + 2
  {
    OnAppends(t, name, h);
    OnAppends(On(t, name, h), name, h);
    assert Registered(t, name) + [h] + [h] == Registered(t, name) + [h, h];
  }

  /*
   The handler table as the class declares it: a field with no initialiser,
   which no code ever assigns. It therefore starts out `undefined`.
   */

  /** The handler-table field: either never assigned, or holding a table. */
  datatype HandlerField<H> = Undefined | Defined(table: HandlerTable<H>)

  /** `on` as written: indexing the field throws while the field is `undefined`. */
  function OnAsWritten<H>(f: HandlerField<H>, name: EventName, h: H): (r: Outcome<HandlerField<H>>)
    ensures r.Threw? <==> f.Undefined?
    ensures r.Threw? ==> r.fault == UndefinedHandlerTable
    ensures f.Defined? ==> r.Done? && r.value.Defined? && Registered(r.value.table, name) == Registered(f.table, name) + [h]
    ensures f.Defined? ==> r.Done? && r.value.Defined? && r.value.table.Keys == f.table.Keys + {name}
    ensures f.Defined? ==> r.Done? && r.value.Defined? &&
                           forall n :: n != name ==> Registered(r.value.table, n) == Registered(f.table, n)
  {
    match f
    case Undefined => Threw(UndefinedHandlerTable)
    case Defined(t) =>
      OnAppends(t, name, h);
      Done(Defined(On(t, name, h)))
  }

  /**
   As written, the very first registration on a freshly constructed channel
   throws, whatever the name and handler.
   */
  lemma FirstRegistrationThrowsAsWritten<H>(name: EventName, h: H)
    ensures OnAsWritten(Undefined, name, h) == Threw(UndefinedHandlerTable)
  {
  }
}
