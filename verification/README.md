# Mesh routing and signalling handlers of awRTC, in Dafny

This project models the two pieces of sequential logic in awRTC that sit on
top of the browser's WebRTC API:

- **The mesh coordinator.** Two near-identical drafts exist: `Rtc` in
  `src/rtc.ts` and `AwRTC` in `src/rtc/awRTC.ts`. Each keeps one registry
  from remote participant id to `Peer`. It routes the four signalling events
  to those peers:
  - a peer list creates a new peer for every non-self id, overwriting any
    existing entry, and starts it (ids are taken to be valid selector text,
    see "## Left out");
  - an offer goes to the registered peer, or to a peer created lazily;
  - answers and candidates go to the registered peer.

  The routing logic of the two drafts differs only in the call that starts
  a new peer: `initiateConnection` in `Rtc` and `sendOffer` in `AwRTC`. The
  `StartCall` value carried by each coordinator records which draft it is.
  The drafts also differ in what they are built on. `Rtc` takes the abstract
  `Signalling` class of `src/signalling.ts` and the `Peer` of `src/peer.ts`.
  `AwRTC` takes the `Signalling` interface of `src/rtc/signalling.ts` and the
  `Peer` of `src/rtc/peer.ts`.
- **The signalling handler registry.** The abstract `Signalling` class in
  `src/signalling.ts` keeps a multimap from an event name to handlers.
  `on` appends a handler to a name's list. `dispatch` calls every handler of
  a name in registration order.

Modules:

- `Signalling` (`signalling.dfy`) models the registry.
  - `EventName` has exactly the four names `offer`, `answer`,
    `newCandidate` and `peerList` (`src/signalling.ts:23`).
  - Handlers are opaque tokens, and `Dispatch` returns the tokens it invoked.
- `Mesh` (`mesh.dfy`) models the routing shared by both drafts.
  - A `Peer` is its id plus a generation token. Every instantiation draws a
    new token from the coordinator's counter, so an overwritten entry can be
    told apart from a reused one.
  - Every call the coordinator makes on a peer is appended to an action log.
- `Rtc` (`rtc.dfy`) and `AwRtc` (`awrtc.dfy`) hold the two constructors and
  the draft-specific statements.
- `Outcomes` (`outcomes.dfy`) holds the one kind of failure the code can
  produce: a TypeError from reading a property of `undefined`.

Where the code differs from what a mesh coordinator is usually expected to
do, the model follows the code:

- Departed peers are never removed (`Mesh.RunNeverRemoves`).
- Re-delivering the same roster is not a no-op: every listed peer is
  replaced and started again (`Mesh.RedeliveredRosterReplacesAgain`).
- An answer or candidate for an unknown id is not dropped quietly. The
  handler throws (`Mesh.Handle`), and the routing functions require the id
  to be registered.
- An offer from the coordinator's own id is not filtered. It creates a
  registry entry for the self id, as the code does.
- The code has no negotiation state machine: no candidate buffering, no
  roles, no teardown, no renegotiation. None of that is modelled.

The `forEach` callbacks of `connectToPeers` are `async`, but they contain no
`await`. Each one therefore runs to completion before the next one starts,
and `Mesh.ConnectToPeers` processes the list sequentially, left to right.

## Model

| member | source | states |
|---|---|---|
| `Signalling.On` | src/signalling.ts:39-42 | `on` gives the name a list if it had none, keeps the earlier handlers in their positions, puts the new handler last, and leaves every other name's list unchanged. |
| `Signalling.OnAppends` | src/signalling.ts:40-41 | As a sequence equation: the name's list becomes its old list (empty if it had none) followed by the handler. The other names' lists are unchanged. |
| `Signalling.Dispatch` | src/signalling.ts:44-46 | `dispatch` invokes each handler registered for the name exactly once, in registration order. It requires the name to have a list, because the code calls `forEach` on `undefined` otherwise. The table is a value, so dispatch cannot change it. |
| `Signalling.OnAllAppendsInOrder` | src/signalling.ts:39-46 | After any run of `on` calls, each name's list is its earlier list followed by exactly the handlers registered for that name, in registration order. A name has a list iff it had one before or something was registered for it. |
| `Signalling.EmptyTableRegistersInOrder` | src/signalling.ts:39-46 | Starting from an empty table, after any run of `on` calls a name has a list (so `dispatch` on it does not throw) iff something was registered for it. That list, which `dispatch` walks, is exactly those handlers, in registration order. |
| `Signalling.NoDeduplication` | src/signalling.ts:41 | Registering one handler twice leaves it in the list twice, so its multiplicity grows by two. |
| `Signalling.OnAsWritten` | src/signalling.ts:28-42 | `on` on the handler field as declared. It throws a TypeError exactly when the field was never assigned. On an assigned field it appends the handler to the name's list, adds the name to the table's keys, and leaves every other name's list unchanged. |
| `Signalling.FirstRegistrationThrowsAsWritten` | src/signalling.ts:28-41 | On a newly constructed channel, the first `on` throws, whatever the name and handler. |
| `Mesh.Construct` | src/rtc.ts:21-26 | Construction leaves the registry empty and the log empty. It appends exactly one handler to each of the four event names: the route `RouteFor` gives for that name, which `Mesh.Invoke` runs. |
| `Rtc.NewAsWritten` | src/rtc.ts:9-13 | `new Rtc` on the channel's handler field as declared (`src/signalling.ts:28`, indexed by `on` at `src/signalling.ts:40`). It throws iff the field is unassigned. On an assigned field it agrees with `Rtc.New`. |
| `Rtc.NewThrowsAsWritten` | src/rtc.ts:9-13 | Constructing an `Rtc` on a newly constructed channel always throws, because the first `on` indexes the unassigned field. |
| `Mesh.ConnectToPeers` | src/rtc.ts:52-58 | `connectToPeers` keeps the self id and the start call, only appends to the log, and removes no entry. Afterwards every listed non-self id has an entry. |
| `Mesh.NonSelf` | src/rtc.ts:53-54 | The ids the roster loop acts on. An id is among them iff it is listed and is not the self id, and each such id occurs as often as in the list. |
| `Mesh.ConnectToPeersEffect` | src/rtc.ts:52-58 | The complete effect of `connectToPeers`. The log gains one start call per non-self occurrence, in list order, each on a new peer with the next token. Each non-self id holds the peer made for its last occurrence. Every other entry is unchanged. |
| `Mesh.ConnectToPeersPreservesValid` | src/rtc.ts:55 | `connectToPeers` keeps every entry keyed by its own peer id. It keeps every token held or logged below the counter. |
| `Mesh.ConnectToPeersSkipsSelf` | src/rtc.ts:54 | The self id's entry, present or absent, is untouched. No new call is made on a peer for the self id. |
| `Mesh.ConnectToPeersReplaces` | src/rtc.ts:55 | Every listed non-self id ends up with a peer instantiated during the call. That peer differs from the prior entry and from every peer acted on before, so the prior entry is overwritten, not reused. |
| `Mesh.ConnectToPeersStartsEachOccurrence` | src/rtc.ts:53-57 | The log gains only start calls, each on a different new peer. Each non-self id is started as many times as it occurs in the list, and the self id never is. |
| `Mesh.ConnectToPeersStartsHeldPeer` | src/rtc.ts:55-56 | The peer left under a listed non-self id is one that this call started. |
| `Mesh.ConnectToPeersKeepsOthers` | src/rtc.ts:52-58 | An id absent from the list keeps exactly what it had: the same peer, or no entry. |
| `Mesh.RedeliveredRosterReplacesAgain` | src/rtc.ts:53-56 | Handling the same roster twice gives every listed non-self id yet another new peer and makes more calls, so roster handling is not idempotent. |
| `Mesh.AcceptOffer` | src/rtc.ts:60-63 | An offer reuses the registered peer, or creates a new peer only when none exists. The offer is then handed to that peer. No other entry changes, and the token counter advances only on creation. |
| `Mesh.AcceptAnswer` | src/rtc.ts:73-75 | An answer for a registered id goes to that peer. The registry and the token counter are unchanged. |
| `Mesh.AcceptCandidate` | src/rtc.ts:77-79 | A candidate for a registered id goes to that peer. The registry and the token counter are unchanged. |
| `Mesh.OfferReusesOrCreates` | src/rtc.ts:60-63 | An offer keeps the registry as it is when the sender is registered. Otherwise it adds exactly one never-before-seen peer for the sender. Either way, handing over the offer is the only call it makes. |
| `Mesh.AnswerAndCandidateNeedRegisteredPeer` | src/rtc.ts:73-79 | The answer and candidate handlers throw iff the id is unregistered. Otherwise they make one call, of the right kind, on the registered peer, and leave the registry and the counter unchanged. |
| `Mesh.Invoke` | src/rtc.ts:22-25 | Running a registered handler throws iff it is the answer or candidate handler and the event's id is unregistered. |
| `Mesh.Handle` | src/rtc.ts:21-26 | The handler registered for an event's name, run on the event. A peer list runs `ConnectToPeers` on its roster, an offer runs `AcceptOffer`, and an answer or candidate for a registered id runs `AcceptAnswer` or `AcceptCandidate`. It throws exactly for an answer or candidate from an unregistered id, and then it names that id. Otherwise the self id and the start call are kept. |
| `Mesh.RunNeverRemoves` | src/rtc.ts:52-79 | Over any sequence of events, the coordinator stays valid, the log only grows, and no registry entry is ever removed. |
| `Rtc.New` | src/rtc.ts:9-13 | `new Rtc` starts with an empty registry and starts peers with `initiateConnection`. It appends one handler per event kind. |
| `Rtc.NewChannelRoutesEachEventOnce` | src/rtc.ts:21-26 | On a channel with no handlers, each event name ends with exactly one handler: the one routing to the matching method. |
| `Rtc.NewChannelHandlerRunsHandle` | src/rtc.ts:21-26 | On a channel with no handlers, after construction the list `Dispatch` walks for any event's name holds exactly one handler. That handler accepts the event and has the effect of `Mesh.Handle`. |
| `AwRtc.New` | src/rtc/awRTC.ts:8-11 | `new AwRTC` starts with an empty registry and starts peers with `sendOffer`. It appends one handler per event kind. |
| `AwRtc.ConnectToPeersSendsOffers` | src/rtc/awRTC.ts:50-56 | On a roster, the self id is skipped. Each other listed id gets a new peer that overwrites any earlier one. There is exactly one `sendOffer` per non-self occurrence, and unlisted ids keep their entries. |

## Left out

- `AwRtc.New`: the `AwRTC` channel is the `Signalling` interface of
  `src/rtc/signalling.ts`, which declares `on` but has no body for it. Its
  `on` is modelled by `Signalling.On`, the behaviour of the abstract class
  once its field holds a table. No as-written construction failure is
  claimed for `AwRTC`, because the channel class that implements the
  interface is not part of this model.
- The `Peer` classes (`src/peer.ts`, `src/rtc/peer.ts`) and
  `src/peer-connection.ts` are not part of this model. They wrap
  `RTCPeerConnection` and data channels. A peer is an opaque id plus token,
  and what it does with a call is not modelled.
- `initialize`, `getLocalMediaStream`, `assignMediaStreamToPageElements`
  and the element lookups `getAudioElementForUserId` and
  `getVideoElementForUserId` are left out. They are media capture and DOM
  binding. Likewise, `instantiatePeer` is modelled only as "a new peer for
  this id": its media elements and `rtcConfiguration` are left out.
- The abstract `registerPeer` and `send...ToRemotePeer` methods of
  `Signalling` have no body. `src/rtc/signalling.ts` is an interface
  declaration only. The concrete channel that calls `dispatch` is not part
  of this model, so what happens to an exception after it leaves a handler
  is not modelled either.
- `Mesh.Run`: a handler that throws leaves the coordinator unchanged. The
  code throws before writing anything, so this matches the code. Whether
  later events still arrive depends on the channel.
- `Signalling.Dispatch`: handlers are tokens, so the effect of invoking one
  is not modelled. With several handlers on one name, a throwing handler
  would stop the rest in the code. The model does not show this, because
  it returns all handlers of the name.
- `Mesh.ConnectToPeers` and `Mesh.AcceptOffer` take every peer id to be
  valid text for a CSS class selector, so that `instantiatePeer` never
  throws. In the code, `instantiatePeer` looks up the peer's media elements
  with `document.querySelector('audio.id-' + peerId)`, and that call throws
  a SyntaxError for an id such as `a@b.com` or `a:b`. The lookup runs before
  the registry store, inside an `async` callback or method. For such an id
  the roster callback or `acceptOfferFromRemotePeer` only rejects its
  promise: no entry is written or overwritten, and no `initiateConnection`,
  `sendOffer` or `receiveOffer` is made. The rest of the roster is still
  processed. The model, by contrast, creates and starts a peer for every
  non-self id and delivers every offer.
- Registry keys that clash with properties of `Object.prototype` are not
  modelled. The registry is a plain `{}` in the code, so an id such as
  `constructor` is already "present" there.
- `AwRTC` calls `sendOffer`, which is private in `src/rtc/peer.ts`. This is
  a type-checking matter, and the model records the call.
- Candidate buffering, session teardown, roles, offer collisions and
  renegotiation after a stream change are not in the code, so they are not
  modelled.

## Findings

| source | as written | input that shows it | evidently intended | confidence | as-written member | corrected member |
|---|---|---|---|---|---|---|
| src/signalling.ts:28 | The `eventHandlers` field has no initialiser and is never assigned. `on` indexes that field, so it reads a property of `undefined`. | The first `on('peerList', h)` on any new channel. | The table starts as an empty map, so that `on` and `dispatch` work. | high; not executed | `Signalling.OnAsWritten` | `Signalling.EmptyTableRegistersInOrder` |
| src/rtc.ts:9-13 | The `Rtc` constructor calls `on` four times on the abstract `Signalling` class, so because of the field above, constructing `Rtc` throws. | `new Rtc('a', s)` with `s` a new channel. | Construction registers four handlers on an empty table. | high; not executed | `Rtc.NewAsWritten` | `Rtc.New` |
