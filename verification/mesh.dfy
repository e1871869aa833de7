/**
 The mesh coordinator shared by the two coordinator drafts (`Rtc` and
 `AwRTC`): a registry from remote participant id to `Peer`, and the routing
 of signalling events to those peers.

 A `Peer` is abstract: its id plus a generation token drawn from a counter
 that every `new Peer(...)` advances, so that an entry that was overwritten
 by a new peer can be told apart from one that was reused. What the
 coordinator asks of its peers is recorded in an append-only action log.
 */
module Mesh {
  import Signalling
  import opened Outcomes

  /** A participant id as the signalling service reports it. */
  type PeerId = string

  /** An opaque session description (offer or answer). */
  type Description = string

  /** An opaque ICE candidate. */
  type Candidate = string

  /** A `Peer` object: whom it talks to, and which instantiation it is. */
  datatype Peer = Peer(id: PeerId, gen: nat)

  /**
   The call a coordinator makes on a peer it has just created for a roster
   entry: `initiateConnection` in the first draft, `sendOffer` in the second.
   */
  datatype StartCall = InitiateConnection | SendOffer

  /** A call the coordinator made on a peer. */
  datatype Action =
    | Initiate(call: StartCall, peer: Peer)
    | DeliverOffer(peer: Peer, offer: Description)
    | DeliverAnswer(peer: Peer, answer: Description)
    | DeliverCandidate(peer: Peer, candidate: Candidate)

  /**
   The coordinator: its own id, the call it starts new peers with, the peer
   registry, the next generation token, and the log of calls made on peers.
   */
  datatype Coordinator = Coordinator(
    self: PeerId,
    start: StartCall,
    peers: map<PeerId, Peer>,
    nextGen: nat,
    log: seq<Action>)

  /**
   Every entry holds a peer created for its own key, and every peer ever
   instantiated (held or acted on) carries a token below `nextGen`; so a peer
   with token `nextGen` or above is one that did not exist before.
   */
  predicate Valid(c: Coordinator)
  {
    && (forall id :: id in c.peers ==> c.peers[id].id == id && c.peers[id].gen < c.nextGen)
    && (forall i :: 0 <= i < |c.log| ==> c.log[i].peer.gen < c.nextGen)
  }

  /** The coordinator method a registered handler calls. */
  datatype Route = ConnectToPeersRoute | AcceptOfferRoute | AcceptAnswerRoute | AcceptCandidateRoute

  /** The handler the constructor registers for each event name. */
  function RouteFor(name: Signalling.EventName): Route
  {
    match name
    case PeerList => ConnectToPeersRoute
    case Offer => AcceptOfferRoute
    case Answer => AcceptAnswerRoute
    case NewCandidate => AcceptCandidateRoute
  }

  /**
   Construction: an empty registry, and one handler registered on the
   signalling channel for each of the four event kinds, in the order
   peerList, offer, answer, newCandidate.
   */
  function Construct(self: PeerId, start: StartCall, t: Signalling.HandlerTable<Route>): (r: (Coordinator, Signalling.HandlerTable<Route>))
    ensures r.0.self == self && r.0.start == start
    ensures r.0.peers == map[] && r.0.log == [] && Valid(r.0)
    ensures r.1.Keys == t.Keys + {Signalling.PeerList, Signalling.Offer, Signalling.Answer, Signalling.NewCandidate}
    ensures forall n :: Signalling.Registered(r.1, n) == Signalling.Registered(t, n) + [RouteFor(n)]
  {
    ConstructKeys(t);
    ConstructRegisters(t);
    (Coordinator(self, start, map[], 0, []), Register(t))
  }

  /** The constructor's four `on` calls, in the order `registerSignallingEventHandlers` makes them. */
  function Register(t: Signalling.HandlerTable<Route>): Signalling.HandlerTable<Route>
  {
    var t1 := Signalling.On(t, Signalling.PeerList, ConnectToPeersRoute);
    var t2 := Signalling.On(t1, Signalling.Offer, AcceptOfferRoute);
    var t3 := Signalling.On(t2, Signalling.Answer, AcceptAnswerRoute);
    Signalling.On(t3, Signalling.NewCandidate, AcceptCandidateRoute)
  }

  lemma ConstructKeys(t: Signalling.HandlerTable<Route>)
    ensures Register(t).Keys == t.Keys + {Signalling.PeerList, Signalling.Offer, Signalling.Answer, Signalling.NewCandidate}
  {
    var t1 := Signalling.On(t, Signalling.PeerList, ConnectToPeersRoute);
    var t2 := Signalling.On(t1, Signalling.Offer, AcceptOfferRoute);
    var t3 := Signalling.On(t2, Signalling.Answer, AcceptAnswerRoute);
    assert t1.Keys == t.Keys + {Signalling.PeerList};
    assert t2.Keys == t.Keys + {Signalling.PeerList, Signalling.Offer};
    assert t3.Keys == t.Keys + {Signalling.PeerList, Signalling.Offer, Signalling.Answer};
  }

  lemma ConstructRegisters(t: Signalling.HandlerTable<Route>)
    ensures forall n :: Signalling.Registered(Register(t), n) == Signalling.Registered(t, n) + [RouteFor(n)]
  {
    var t1 := Signalling.On(t, Signalling.PeerList, ConnectToPeersRoute);
    var t2 := Signalling.On(t1, Signalling.Offer, AcceptOfferRoute);
    var t3 := Signalling.On(t2, Signalling.Answer, AcceptAnswerRoute);
    Signalling.OnAppends(t, Signalling.PeerList, ConnectToPeersRoute);
    Signalling.OnAppends(t1, Signalling.Offer, AcceptOfferRoute);
    Signalling.OnAppends(t2, Signalling.Answer, AcceptAnswerRoute);
    Signalling.OnAppends(t3, Signalling.NewCandidate, AcceptCandidateRoute);
    forall n
      ensures Signalling.Registered(Register(t), n) == Signalling.Registered(t, n) + [RouteFor(n)]
    {
      match n
      case PeerList =>
        assert Signalling.Registered(Register(t), n) == Signalling.Registered(t1, n);
      case Offer =>
        assert Signalling.Registered(Register(t), n) == Signalling.Registered(t2, n);
        assert Signalling.Registered(t1, n) == Signalling.Registered(t, n);
      case Answer =>
        assert Signalling.Registered(Register(t), n) == Signalling.Registered(t3, n);
        assert Signalling.Registered(t2, n) == Signalling.Registered(t, n);
      case NewCandidate =>
        assert Signalling.Registered(t3, n) == Signalling.Registered(t, n);
    }
  }

  /** One iteration of the roster loop: skip self, else a new peer overwrites the entry and is started. */
  function ConnectOne(c: Coordinator, id: PeerId): Coordinator
  {
    if id == c.self then c
    else
      var p := Peer(id, c.nextGen);
      c.(peers := c.peers[id := p], nextGen := c.nextGen + 1, log := c.log + [Initiate(c.start, p)])
  }

  /** `connectToPeers`: the roster loop, one iteration per list element, in list order. */
  function ConnectToPeers(c: Coordinator, peerList: seq<PeerId>): (r: Coordinator)
    ensures r.self == c.self && r.start == c.start
    ensures |c.log| <= |r.log| && r.log[..|c.log|] == c.log
    ensures forall id :: id in c.peers ==> id in r.peers
    ensures forall id :: id in peerList && id != c.self ==> id in r.peers
    decreases |peerList|
  {
    if peerList == [] then c else ConnectToPeers(ConnectOne(c, peerList[0]), peerList[1..])
  }

  /** The elements of `list` other than `self`, in order and with repeats. */
  function NonSelf(list: seq<PeerId>, self: PeerId): (ns: seq<PeerId>)
    ensures forall id :: id in ns <==> id in list && id != self
    ensures forall id :: id != self ==> multiset(ns)[id] == multiset(list)[id]
    decreases |list|
  {
    if list == [] then []
    else
      assert list == [list[0]] + list[1..];
      (if list[0] == self then [] else [list[0]]) + NonSelf(list[1..], self)
  }

  /** Reference definition: start a new peer for each of `ids`, with tokens counting up from `g`. */
  function Initiations(call: StartCall, ids: seq<PeerId>, g: nat): seq<Action>
  {
    seq(|ids|, k requires 0 <= k < |ids| => Initiate(call, Peer(ids[k], g + k)))
  }

  /** The ids of the peers acted on by `actions`, in order. */
  function PeerIds(actions: seq<Action>): seq<PeerId>
  {
    seq(|actions|, i requires 0 <= i < |actions| => actions[i].peer.id)
  }

  /** `p` is the peer created for the LAST occurrence of its id in `ns`, tokens counting up from `g`. */
  predicate LastCreatedAt(ns: seq<PeerId>, g: nat, p: Peer)
  {
    && g <= p.gen < g + |ns|
    && ns[p.gen - g] == p.id
    && forall j :: p.gen - g < j < |ns| ==> ns[j] != p.id
  }

  lemma InitiationsSplit(call: StartCall, a: seq<PeerId>, b: seq<PeerId>, g: nat)
    ensures Initiations(call, a + b, g) == Initiations(call, a, g) + Initiations(call, b, g + |a|)
  {
  }

  /**
   The whole effect of `connectToPeers`: one new peer per non-self element,
   in list order, each started once; every non-self id ends up holding the
   peer made for its last occurrence; every other entry is untouched.
   */
  lemma {:induction false} ConnectToPeersEffect(c: Coordinator, peerList: seq<PeerId>)
    ensures var r := ConnectToPeers(c, peerList); var ns := NonSelf(peerList, c.self);
      && r.self == c.self && r.start == c.start
      && r.nextGen == c.nextGen + |ns|
      && r.log == c.log + Initiations(c.start, ns, c.nextGen)
      && (forall id :: id in r.peers <==> id in c.peers || id in ns)
      && (forall id :: id in c.peers && id !in ns ==> r.peers[id] == c.peers[id])
      && (forall id :: id in ns ==> r.peers[id].id == id && LastCreatedAt(ns, c.nextGen, r.peers[id]))
    decreases |peerList|
  {
    if peerList != [] {
      var x := peerList[0];
      var c1 := ConnectOne(c, x);
      ConnectToPeersEffect(c1, peerList[1..]);
      var r := ConnectToPeers(c, peerList);
      assert r == ConnectToPeers(c1, peerList[1..]);
      var ns' := NonSelf(peerList[1..], c.self);
      var h := if x == c.self then [] else [x];
      var ns := NonSelf(peerList, c.self);
      assert ns == h + ns';
      InitiationsSplit(c.start, h, ns', c.nextGen);
      assert c1.log == c.log + Initiations(c.start, h, c.nextGen);
      assert c1.nextGen == c.nextGen + |h|;
      assert r.log == c.log + Initiations(c.start, ns, c.nextGen);
      forall id | id in ns
        ensures r.peers[id].id == id && LastCreatedAt(ns, c.nextGen, r.peers[id])
      {
        if id in ns' {
          LastCreatedPrefix(h, ns', c.nextGen, r.peers[id]);
        } else {
          assert id == x && h == [x];
          assert r.peers[id] == c1.peers[id];
        }
      }
    }
  }

  /** Prepending ids to a list shifts the position of a last occurrence without changing it. */
  lemma LastCreatedPrefix(h: seq<PeerId>, ns': seq<PeerId>, g: nat, p: Peer)
    requires LastCreatedAt(ns', g + |h|, p)
    ensures LastCreatedAt(h + ns', g, p)
  {
    var ns := h + ns';
    assert ns[p.gen - g] == ns'[p.gen - (g + |h|)];
    forall j | p.gen - g < j < |ns|
      ensures ns[j] != p.id
    {
      assert ns[j] == ns'[j - |h|];
    }
  }

  /** `connectToPeers` keeps every registry entry keyed by its peer and every token below `nextGen`. */
  lemma ConnectToPeersPreservesValid(c: Coordinator, peerList: seq<PeerId>)
    requires Valid(c)
    ensures Valid(ConnectToPeers(c, peerList))
  {
    ConnectToPeersEffect(c, peerList);
    var r := ConnectToPeers(c, peerList);
    var ns := NonSelf(peerList, c.self);
    forall i | 0 <= i < |r.log|
      ensures r.log[i].peer.gen < r.nextGen
    {
      if i >= |c.log| {
        assert r.log[i] == Initiations(c.start, ns, c.nextGen)[i - |c.log|];
      }
    }
  }

  /** The self id is skipped: its entry (present or absent) is untouched and no new peer is made for it. */
  lemma ConnectToPeersSkipsSelf(c: Coordinator, peerList: seq<PeerId>)
    ensures var r := ConnectToPeers(c, peerList);
      && (c.self in r.peers <==> c.self in c.peers)
      && (c.self in c.peers ==> r.peers[c.self] == c.peers[c.self])
      && forall i :: |c.log| <= i < |r.log| ==> r.log[i].peer.id != c.self
  {
    ConnectToPeersEffect(c, peerList);
    var r := ConnectToPeers(c, peerList);
    var ns := NonSelf(peerList, c.self);
    forall i | |c.log| <= i < |r.log|
      ensures r.log[i].peer.id != c.self
    {
      assert r.log[i] == Initiations(c.start, ns, c.nextGen)[i - |c.log|];
    }
  }

  /**
   Every non-self id of the list ends up holding a peer instantiated during
   this call, never one that existed before it: a prior entry is overwritten,
   not reused.
   */
  lemma ConnectToPeersReplaces(c: Coordinator, peerList: seq<PeerId>)
    requires Valid(c)
    ensures var r := ConnectToPeers(c, peerList);
      forall id :: id in peerList && id != c.self ==>
        && id in r.peers
        && r.peers[id].id == id
        && r.peers[id].gen >= c.nextGen
        && (id in c.peers ==> r.peers[id] != c.peers[id])
        && (forall i :: 0 <= i < |c.log| ==> c.log[i].peer != r.peers[id])
  {
    ConnectToPeersEffect(c, peerList);
    var ns := NonSelf(peerList, c.self);
  }

  /**
   The calls made on peers: one start call per non-self occurrence in the
   list, in list order, each on a distinct newly made peer; an id listed
   twice is instantiated and started twice, the self id never.
   */
  lemma ConnectToPeersStartsEachOccurrence(c: Coordinator, peerList: seq<PeerId>)
    ensures var r := ConnectToPeers(c, peerList); var added := r.log[|c.log|..];
      && (forall i :: 0 <= i < |added| ==> added[i].Initiate? && added[i].call == c.start && added[i].peer.gen >= c.nextGen)
      && (forall i, j :: 0 <= i < j < |added| ==> added[i].peer != added[j].peer)
      && (forall id :: multiset(PeerIds(added))[id] == if id == c.self then 0 else multiset(peerList)[id])
  {
    ConnectToPeersEffect(c, peerList);
    var r := ConnectToPeers(c, peerList);
    var ns := NonSelf(peerList, c.self);
    var added := r.log[|c.log|..];
    assert added == Initiations(c.start, ns, c.nextGen);
    InitiationsShape(c.start, ns, c.nextGen);
    assert PeerIds(added) == ns;
    assert c.self !in ns;
    assert multiset(ns)[c.self] == 0;
  }

  /** The peer a roster update leaves under a listed non-self id is one it started. */
  lemma ConnectToPeersStartsHeldPeer(c: Coordinator, peerList: seq<PeerId>)
    ensures var r := ConnectToPeers(c, peerList);
      forall id :: id in peerList && id != c.self ==> Initiate(c.start, r.peers[id]) in r.log[|c.log|..]
  {
    ConnectToPeersEffect(c, peerList);
    var r := ConnectToPeers(c, peerList);
    var ns := NonSelf(peerList, c.self);
    var added := r.log[|c.log|..];
    assert added == Initiations(c.start, ns, c.nextGen);
    forall id | id in peerList && id != c.self
      ensures Initiate(c.start, r.peers[id]) in added
    {
      assert id in ns;
      var k := r.peers[id].gen - c.nextGen;
      assert added[k] == Initiate(c.start, r.peers[id]);
    }
  }

  /** The started peers are distinct, fresh from `g` on, and listed in the order of `ids`. */
  lemma InitiationsShape(call: StartCall, ids: seq<PeerId>, g: nat)
    ensures var a := Initiations(call, ids, g);
      && PeerIds(a) == ids
      && (forall i :: 0 <= i < |a| ==> a[i].Initiate? && a[i].call == call && a[i].peer.gen == g + i)
      && (forall i, j :: 0 <= i < j < |a| ==> a[i].peer != a[j].peer)
  {
    var a := Initiations(call, ids, g);
    assert forall i :: 0 <= i < |a| ==> a[i].peer.gen == g + i;
  }

  /** Ids absent from the list keep exactly what they had: present with the same peer, or absent. */
  lemma ConnectToPeersKeepsOthers(c: Coordinator, peerList: seq<PeerId>)
    ensures var r := ConnectToPeers(c, peerList);
      forall id :: id !in peerList ==> (id in r.peers <==> id in c.peers) && (id in c.peers ==> r.peers[id] == c.peers[id])
  {
    ConnectToPeersEffect(c, peerList);
    var ns := NonSelf(peerList, c.self);
  }

  /**
   Re-delivering the same roster is not a no-op: each listed non-self id
   gets yet another new peer, started again.
   */
  lemma RedeliveredRosterReplacesAgain(c: Coordinator, peerList: seq<PeerId>, id: PeerId)
    requires Valid(c)
    requires id in peerList && id != c.self
    ensures var r1 := ConnectToPeers(c, peerList); var r2 := ConnectToPeers(r1, peerList);
      r2.peers[id] != r1.peers[id] && |r2.log| > |r1.log|
  {
    var r1 := ConnectToPeers(c, peerList);
    ConnectToPeersPreservesValid(c, peerList);
    ConnectToPeersEffect(c, peerList);
    ConnectToPeersReplaces(r1, peerList);
    ConnectToPeersStartsHeldPeer(r1, peerList);
    var r2 := ConnectToPeers(r1, peerList);
    assert Initiate(r1.start, r2.peers[id]) in r2.log[|r1.log|..];
  }

  /**
   `acceptOfferFromRemotePeer`: an existing peer for `peerId` is reused, and
   only when there is none is a new one created; the offer then goes to that
   peer. No other entry changes.
   */
  function AcceptOffer(c: Coordinator, peerId: PeerId, offer: Description): (r: Coordinator)
    ensures r.self == c.self && r.start == c.start
    ensures r.peers.Keys == c.peers.Keys + {peerId}
    ensures forall id :: id in c.peers ==> r.peers[id] == c.peers[id]
    ensures peerId in c.peers ==> r.nextGen == c.nextGen
    ensures peerId !in c.peers ==> r.peers[peerId].id == peerId && r.peers[peerId].gen >= c.nextGen && r.nextGen == c.nextGen + 1
    ensures r.log == c.log + [DeliverOffer(r.peers[peerId], offer)]
    ensures Valid(c) ==> Valid(r)
  {
    if peerId in c.peers then
      c.(log := c.log + [DeliverOffer(c.peers[peerId], offer)])
    else
      var p := Peer(peerId, c.nextGen);
      c.(peers := c.peers[peerId := p], nextGen := c.nextGen + 1, log := c.log + [DeliverOffer(p, offer)])
  }

  /**
   `acceptAnswerFromRemotePeer`: the answer goes to the registered peer; the
   registry is untouched and no peer is created. For an unregistered id,
   `acceptAnswerFromRemotePeer` reads a property of `undefined`, hence the
   precondition.
   */
  function AcceptAnswer(c: Coordinator, peerId: PeerId, answer: Description): (r: Coordinator)
    requires peerId in c.peers
    ensures r.self == c.self && r.start == c.start
    ensures r.peers == c.peers && r.nextGen == c.nextGen
    ensures r.log == c.log + [DeliverAnswer(c.peers[peerId], answer)]
    ensures Valid(c) ==> Valid(r)
  {
    c.(log := c.log + [DeliverAnswer(c.peers[peerId], answer)])
  }

  /**
   `acceptNewCandidateFromRemotePeer`: the candidate goes to the registered
   peer; the registry is untouched and no peer is created. For an
   unregistered id, `acceptNewCandidateFromRemotePeer` reads a property of
   `undefined`, hence the precondition.
   */
  function AcceptCandidate(c: Coordinator, peerId: PeerId, candidate: Candidate): (r: Coordinator)
    requires peerId in c.peers
    ensures r.self == c.self && r.start == c.start
    ensures r.peers == c.peers && r.nextGen == c.nextGen
    ensures r.log == c.log + [DeliverCandidate(c.peers[peerId], candidate)]
    ensures Valid(c) ==> Valid(r)
  {
    c.(log := c.log + [DeliverCandidate(c.peers[peerId], candidate)])
  }

  /** A signalling event as the channel dispatches it. */
  datatype Event =
    | PeerListEvent(peerList: seq<PeerId>)
    | OfferEvent(peerId: PeerId, offer: Description)
    | AnswerEvent(peerId: PeerId, answer: Description)
    | NewCandidateEvent(peerId: PeerId, iceCandidate: Candidate)

  /** The name an event is dispatched under. */
  function NameOf(e: Event): Signalling.EventName
  {
    match e
    case PeerListEvent(_) => Signalling.PeerList
    case OfferEvent(_, _) => Signalling.Offer
    case AnswerEvent(_, _) => Signalling.Answer
    case NewCandidateEvent(_, _) => Signalling.NewCandidate
  }

  /**
   Whether `e` carries the fields the handler behind `route` reads: the
   roster for the peer-list handler, and the sender id with its payload for
   the other three.
   */
  predicate Carries(route: Route, e: Event)
  {
    match route
    case ConnectToPeersRoute => e.PeerListEvent?
    case AcceptOfferRoute => e.OfferEvent?
    case AcceptAnswerRoute => e.AnswerEvent?
    case AcceptCandidateRoute => e.NewCandidateEvent?
  }

  /**
   Runs the handler behind `route` on `e`: it reads the event's fields and
   calls the coordinator method it was registered to call. The answer and
   candidate methods index the registry, so they throw for an unregistered
   id before changing anything.
   */
  function Invoke(route: Route, c: Coordinator, e: Event): (r: Outcome<Coordinator>)
    requires Carries(route, e)
    ensures r.Threw? <==> (route == AcceptAnswerRoute || route == AcceptCandidateRoute) && e.peerId !in c.peers
  {
    match route
    case ConnectToPeersRoute => Done(ConnectToPeers(c, e.peerList))
    case AcceptOfferRoute => Done(AcceptOffer(c, e.peerId, e.offer))
    case AcceptAnswerRoute =>
      if e.peerId in c.peers then Done(AcceptAnswer(c, e.peerId, e.answer)) else Threw(UndefinedPeer(e.peerId))
    case AcceptCandidateRoute =>
      if e.peerId in c.peers then Done(AcceptCandidate(c, e.peerId, e.iceCandidate)) else Threw(UndefinedPeer(e.peerId))
  }

  /**
   The handler the constructor registered for `e`'s name, run on `e`. A peer
   list reaches `ConnectToPeers`, an offer `AcceptOffer`, an answer
   `AcceptAnswer` and a candidate `AcceptCandidate`. It throws exactly for an
   answer or candidate from an unregistered id, and then before it has
   changed anything.
   */
  function Handle(c: Coordinator, e: Event): (r: Outcome<Coordinator>)
    ensures e.PeerListEvent? ==> r == Done(ConnectToPeers(c, e.peerList))
    ensures e.OfferEvent? ==> r == Done(AcceptOffer(c, e.peerId, e.offer))
    ensures e.AnswerEvent? && e.peerId in c.peers ==> r == Done(AcceptAnswer(c, e.peerId, e.answer))
    ensures e.NewCandidateEvent? && e.peerId in c.peers ==> r == Done(AcceptCandidate(c, e.peerId, e.iceCandidate))
    ensures r.Threw? <==> (e.AnswerEvent? || e.NewCandidateEvent?) && e.peerId !in c.peers
    ensures r.Threw? ==> r.fault == UndefinedPeer(e.peerId)
    ensures r.Done? ==> r.value.self == c.self && r.value.start == c.start
  {
    Invoke(RouteFor(NameOf(e)), c, e)
  }

  /**
   An offer never starts a peer: it reuses the registered peer when there
   is one, otherwise it registers a new peer under the sender's id, and the
   one call it makes is to hand the offer to that peer.
   */
  lemma OfferReusesOrCreates(c: Coordinator, peerId: PeerId, offer: Description)
    requires Valid(c)
    ensures var r := AcceptOffer(c, peerId, offer);
      && (peerId in c.peers ==> r.peers == c.peers && r.log == c.log + [DeliverOffer(c.peers[peerId], offer)])
      && (peerId !in c.peers ==>
            && r.peers == c.peers[peerId := r.peers[peerId]]
            && (forall i :: 0 <= i < |c.log| ==> c.log[i].peer != r.peers[peerId])
            && r.log == c.log + [DeliverOffer(r.peers[peerId], offer)])
  {
    var r := AcceptOffer(c, peerId, offer);
    if peerId in c.peers {
      assert r.peers.Keys == c.peers.Keys;
    } else {
      assert r.peers.Keys == c.peers[peerId := r.peers[peerId]].Keys;
    }
  }

  /**
   Answers and candidates, as the registered handlers receive them: for a
   registered id they go to that peer and leave the registry and the token
   counter as they were; for an unregistered id the handler throws.
   */
  lemma AnswerAndCandidateNeedRegisteredPeer(c: Coordinator, e: Event)
    requires e.AnswerEvent? || e.NewCandidateEvent?
    ensures Handle(c, e).Threw? <==> e.peerId !in c.peers
    ensures Handle(c, e).Done? ==>
      var r := Handle(c, e).value;
      && r.peers == c.peers && r.nextGen == c.nextGen
      && |r.log| == |c.log| + 1 && r.log[..|c.log|] == c.log
      && r.log[|c.log|].peer == c.peers[e.peerId]
      && (r.log[|c.log|].DeliverAnswer? <==> e.AnswerEvent?)
  {
    if e.peerId in c.peers {
      var r := Handle(c, e).value;
      assert r.log[..|c.log|] == c.log;
    }
  }

  /**
   A sequence of events handled in delivery order. A handler that throws has
   changed nothing, so the coordinator carries on from the state it had.
   */
  function Run(c: Coordinator, events: seq<Event>): Coordinator
    decreases |events|
  {
    if events == [] then c
    else
      var next := match Handle(c, events[0]) case Done(c') => c' case Threw(_) => c;
      Run(next, events[1..])
  }

  /**
   Over any sequence of events the coordinator stays valid, its log only
   grows, and no registry entry is ever removed: departed peers stay.
   */
  lemma {:induction false} RunNeverRemoves(c: Coordinator, events: seq<Event>)
    requires Valid(c)
    ensures var r := Run(c, events);
      && Valid(r)
      && r.self == c.self && r.start == c.start
      && c.peers.Keys <= r.peers.Keys
      && c.nextGen <= r.nextGen
      && c.log <= r.log
    decreases |events|
  {
    if events != [] {
      var e := events[0];
      var h := Handle(c, e);
      var next := match h case Done(c') => c' case Threw(_) => c;
      if h.Done? {
        match e
        case PeerListEvent(list) =>
          ConnectToPeersPreservesValid(c, list);
          ConnectToPeersEffect(c, list);
        case OfferEvent(_, _) =>
        case AnswerEvent(_, _) =>
        case NewCandidateEvent(_, _) =>
      }
      RunNeverRemoves(next, events[1..]);
    }
  }
}
