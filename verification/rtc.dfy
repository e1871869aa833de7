/**
 The first coordinator draft, class `Rtc`: the shared routing of `Mesh`,
 starting each peer created for a roster entry with `initiateConnection`.
 */
module Rtc {
  import Signalling
  import opened Outcomes
  import opened Mesh

  /**
   `new Rtc(currentUserId, signalling)`: an empty peer registry, and one
   handler per event kind appended to the channel's handler lists.
   */
  function New(currentUserId: PeerId, t: Signalling.HandlerTable<Route>): (r: (Coordinator, Signalling.HandlerTable<Route>))
    ensures r.0.self == currentUserId && r.0.start == InitiateConnection
    ensures r.0.peers == map[] && r.0.log == [] && Valid(r.0)
    ensures forall n :: Signalling.Registered(r.1, n) == Signalling.Registered(t, n) + [RouteFor(n)]
  {
    Construct(currentUserId, InitiateConnection, t)
  }

  /**
   On a channel with no handlers yet, each event name ends up with exactly
   one handler, the one routing to the matching coordinator method, so
   every dispatch reaches the coordinator exactly once.
   */
  lemma NewChannelRoutesEachEventOnce(currentUserId: PeerId, name: Signalling.EventName)
    ensures var t := New(currentUserId, Signalling.Empty()).1;
      name in t && t[name] == [RouteFor(name)]
  {
    var t := New(currentUserId, Signalling.Empty()).1;
    assert Signalling.Registered(Signalling.Empty<Route>(), name) == [];
    assert Signalling.Registered(t, name) == [RouteFor(name)];
  }

  /**
   On a channel with no handlers yet, the list `Dispatch` walks for any
   event's name holds exactly one handler after construction, and that
   handler accepts the event and has the effect of `Handle`.
   */
  lemma NewChannelHandlerRunsHandle(currentUserId: PeerId, c: Coordinator, e: Event)
    ensures var t := New(currentUserId, Signalling.Empty()).1;
      && NameOf(e) in t && |t[NameOf(e)]| == 1
      && Carries(t[NameOf(e)][0], e) && Invoke(t[NameOf(e)][0], c, e) == Handle(c, e)
  {
    NewChannelRoutesEachEventOnce(currentUserId, NameOf(e));
  }

  /**
   `new Rtc(currentUserId, signalling)` as written. The channel is the
   abstract `Signalling` class, whose handler field may never have been
   assigned. The four registrations go to that field. The first one throws on
   an unassigned field, and then nothing is registered and no coordinator
   exists.
   */
  function NewAsWritten(currentUserId: PeerId, f: Signalling.HandlerField<Route>): (r: Outcome<(Coordinator, Signalling.HandlerField<Route>)>)
    ensures r.Threw? <==> f.Undefined?
    ensures r.Threw? ==> r.fault == UndefinedHandlerTable
    ensures f.Defined? ==> r.Done? && r.value.0 == New(currentUserId, f.table).0
                                 && r.value.1 == Signalling.Defined(New(currentUserId, f.table).1)
  {
    match Signalling.OnAsWritten(f, Signalling.PeerList, ConnectToPeersRoute)
    case Threw(e) => Threw(e)
    case Done(f1) =>
      match Signalling.OnAsWritten(f1, Signalling.Offer, AcceptOfferRoute)
      case Threw(e) => Threw(e)
      case Done(f2) =>
        match Signalling.OnAsWritten(f2, Signalling.Answer, AcceptAnswerRoute)
        case Threw(e) => Threw(e)
        case Done(f3) =>
          match Signalling.OnAsWritten(f3, Signalling.NewCandidate, AcceptCandidateRoute)
          case Threw(e) => Threw(e)
          case Done(f4) => Done((Coordinator(currentUserId, InitiateConnection, map[], 0, []), f4))
  }

  /**
   As written, constructing an `Rtc` on a freshly constructed channel always
   throws, because the channel's handler field starts out `undefined`.
   */
  lemma NewThrowsAsWritten(currentUserId: PeerId)
    ensures NewAsWritten(currentUserId, Signalling.Undefined) == Threw(UndefinedHandlerTable)
  {
  }
}
