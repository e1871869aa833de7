/**
 The second coordinator draft, class `AwRTC`: the same routing as `Rtc`,
 except that each peer created for a roster entry is started with
 `sendOffer`.
 */
module AwRtc {
  import Signalling
  import opened Mesh

  /**
   `new AwRTC(currentUserId, signalling)`: an empty peer registry, and one
   handler per event kind appended to the channel's handler lists.
   */
  function New(currentUserId: PeerId, t: Signalling.HandlerTable<Route>): (r: (Coordinator, Signalling.HandlerTable<Route>))
    ensures r.0.self == currentUserId && r.0.start == SendOffer
    ensures r.0.peers == map[] && r.0.log == [] && Valid(r.0)
    ensures forall n :: Signalling.Registered(r.1, n) == Signalling.Registered(t, n) + [RouteFor(n)]
  {
    Construct(currentUserId, SendOffer, t)
  }

  /**
   A roster update on an `AwRTC` coordinator: the self id is skipped; every
   other listed id holds a newly made peer that overwrites any earlier one;
   exactly one `sendOffer` is made per non-self occurrence, each on its own
   new peer; ids not listed keep their entries.
   */
  lemma ConnectToPeersSendsOffers(c: Coordinator, peerList: seq<PeerId>)
    requires Valid(c) && c.start == SendOffer
    ensures var r := ConnectToPeers(c, peerList); var added := r.log[|c.log|..];
      && (c.self in r.peers <==> c.self in c.peers)
      && (forall id :: id in peerList && id != c.self ==>
            r.peers[id].gen >= c.nextGen && (id in c.peers ==> r.peers[id] != c.peers[id])
            && Initiate(SendOffer, r.peers[id]) in added)
      && (forall i :: 0 <= i < |added| ==> added[i].Initiate? && added[i].call == SendOffer)
      && (forall id :: multiset(PeerIds(added))[id] == if id == c.self then 0 else multiset(peerList)[id])
      && (forall id :: id !in peerList && id in c.peers ==> r.peers[id] == c.peers[id])
  {
    ConnectToPeersSkipsSelf(c, peerList);
    ConnectToPeersReplaces(c, peerList);
    ConnectToPeersStartsEachOccurrence(c, peerList);
    ConnectToPeersStartsHeldPeer(c, peerList);
    ConnectToPeersKeepsOthers(c, peerList);
  }
}
