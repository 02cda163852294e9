/**
 The connection tables of a server: one slot per peer, and a map of client connections keyed
 by ids handed out at registration. A connection is known by its socket; a send is taken by
 an open connection's queue and fails on a closed one, which is then dropped from its table.
 */
module ServerNetwork {
  import opened Wrappers
  import opened Commands

  datatype ClusterMessage = OmniPaxosMessage(payload: nat) | LeaderStartSignal(time: int)

  datatype PeerConnection = PeerConnection(peerId: NodeId, socket: nat, open: bool, outgoing: seq<ClusterMessage>)

  datatype ClientConnection = ClientConnection(clientId: ClientId, socket: nat, open: bool, outgoing: seq<ServerMessage>)

  datatype NewConnection = ToPeer(peer: PeerConnection) | ToClient(client: ClientConnection)

  datatype Tables = Tables(
    peers: seq<NodeId>, slots: seq<Option<PeerConnection>>,
    clients: map<ClientId, ClientConnection>, maxClientId: ClientId)

  /** Peer `id` belongs in slot `i`. */
  predicate FirstAt(peers: seq<NodeId>, i: nat, id: NodeId) {
    i < |peers| && peers[i] == id && forall k :: 0 <= k < i ==> peers[k] != id
  }

  /** The first index holding `id`. */
  function Position(peers: seq<NodeId>, id: NodeId): (r: Option<nat>)
    ensures r.Some? ==> FirstAt(peers, r.value, id)
    ensures r.None? ==> id !in peers
  {
    if peers == [] then None
    else if peers[0] == id then Some(0)
    else
      var rest := Position(peers[1..], id);
      assert peers == [peers[0]] + peers[1..];
      if rest.Some? then Some(rest.value + 1) else None
  }

  function Connected(t: Tables, new': NewConnection): Tables {
    match new'
    case ToPeer(connection) =>
      var at := Position(t.peers, connection.peerId);
      if at.Some? && at.value < |t.slots| then t.(slots := t.slots[at.value := Some(connection)]) else t
    case ToClient(connection) => t.(clients := t.clients[connection.clientId := connection])
  }

  function SentToClient(clients: map<ClientId, ClientConnection>, to: ClientId, msg: ServerMessage): map<ClientId, ClientConnection> {
    if to !in clients then clients
    else if clients[to].open then clients[to := clients[to].(outgoing := clients[to].outgoing + [msg])]
    else clients - {to}
  }

  /** What becomes of a slot when a message is sent on it: an open connection queues it, a closed one goes. */
  function QueuedOn(slot: Option<PeerConnection>, msg: ClusterMessage): (r: Option<PeerConnection>)
    ensures r.Some? <==> slot.Some? && slot.value.open
    ensures r.Some? ==> r.value == PeerConnection(slot.value.peerId, slot.value.socket, true, slot.value.outgoing + [msg])
  {
    if slot.Some? && slot.value.open then Some(slot.value.(outgoing := slot.value.outgoing + [msg])) else None
  }

  function SentToPeer(t: Tables, to: NodeId, msg: ClusterMessage): Tables {
    var at := Position(t.peers, to);
    if at.None? || at.value >= |t.slots| || t.slots[at.value].None? then t
    else
      var connection := t.slots[at.value].value;
      if connection.open then t.(slots := t.slots[at.value := Some(connection.(outgoing := connection.outgoing + [msg]))])
      else t.(slots := t.slots[at.value := None])
  }

  /** Each slot belongs to one peer for good, and a client connection is filed under its own id. */
  predicate TablesOk(t: Tables) {
    && |t.slots| == |t.peers|
    && (forall i :: 0 <= i < |t.slots| && t.slots[i].Some? ==> t.slots[i].value.peerId == t.peers[i])
    && (forall c :: c in t.clients ==> t.clients[c].clientId == c <= t.maxClientId)
  }

  class Network {
    const peers: seq<NodeId>
    var peerConnections: seq<Option<PeerConnection>>
    var clientConnections: map<ClientId, ClientConnection>
    var maxClientId: ClientId

    function View(): Tables
      reads this
    {
      Tables(peers, peerConnections, clientConnections, maxClientId)
    }

    constructor (peers: seq<NodeId>)
      ensures View() == Tables(peers, seq(|peers|, _ => None), map[], 0)
      ensures TablesOk(View())
    {
      this.peers := peers;
      peerConnections := seq(|peers|, _ => None);
      clientConnections, maxClientId := map[], 0;
    }

    /** A client registers: it gets the next id. */
    method Register() returns (clientId: ClientId)
      requires TablesOk(View())
      modifies `maxClientId
      ensures View() == old(View()).(maxClientId := clientId)
      ensures clientId == old(maxClientId) + 1 && clientId !in clientConnections
      ensures TablesOk(View())
    {
      maxClientId := maxClientId + 1;
      clientId := maxClientId;
      assert forall c :: c in clientConnections ==> c <= old(View()).maxClientId;
    }

    method ClusterIdToIdx(id: NodeId) returns (idx: Option<nat>)
      ensures idx == Position(peers, id)
    {
      var i := 0;
      while i < |peers|
        invariant 0 <= i <= |peers|
        invariant id !in peers[..i]
      {
        if peers[i] == id {
          return Some(i);
        }
        i := i + 1;
      }
      return None;
    }

    method ApplyConnection(newConnection: NewConnection)
      requires TablesOk(View())
      requires newConnection.ToClient? ==> newConnection.client.clientId <= maxClientId
      modifies `peerConnections, `clientConnections
      ensures View() == Connected(old(View()), newConnection)
      ensures newConnection.ToClient? ==>
                && clientConnections == old(clientConnections)[newConnection.client.clientId := newConnection.client]
                && peerConnections == old(peerConnections)
      ensures newConnection.ToPeer? ==>
                && clientConnections == old(clientConnections)
                && (newConnection.peer.peerId !in peers ==> peerConnections == old(peerConnections))
                && forall i: nat :: FirstAt(peers, i, newConnection.peer.peerId) ==>
                                      i < |peers| == |old(peerConnections)|
                                      && peerConnections == old(peerConnections)[i := Some(newConnection.peer)]
      ensures TablesOk(View())
    {
      match newConnection
      case ToPeer(connection) =>
        var idx := ClusterIdToIdx(connection.peerId);
        if idx.Some? {
          peerConnections := peerConnections[idx.value := Some(connection)];
        }
      case ToClient(connection) =>
        clientConnections := clientConnections[connection.clientId := connection];
    }

    method SendToCluster(to: NodeId, msg: ClusterMessage)
      requires TablesOk(View())
      modifies `peerConnections
      ensures View() == SentToPeer(old(View()), to, msg)
      ensures to !in peers ==> peerConnections == old(peerConnections)
      ensures forall i: nat :: FirstAt(peers, i, to) ==>
                                 i < |peers| == |old(peerConnections)|
                                 && peerConnections == old(peerConnections)[i := QueuedOn(old(peerConnections)[i], msg)]
      ensures TablesOk(View())
    {
      var idx := ClusterIdToIdx(to);
      if idx.Some? && peerConnections[idx.value].Some? {
        var connection := peerConnections[idx.value].value;
        if connection.open {
          peerConnections := peerConnections[idx.value := Some(connection.(outgoing := connection.outgoing + [msg]))];
        } else {
          peerConnections := peerConnections[idx.value := None];
        }
      }
    }

    method SendToClient(to: ClientId, msg: ServerMessage)
      modifies `clientConnections
      ensures clientConnections == SentToClient(old(clientConnections), to, msg)
      ensures old(TablesOk(View())) ==> TablesOk(View())
    {
      if to in clientConnections {
        var connection := clientConnections[to];
        if connection.open {
          clientConnections := clientConnections[to := connection.(outgoing := connection.outgoing + [msg])];
        } else {
          clientConnections := clientConnections - {to};
        }
      }
    }

    method Shutdown()
      requires TablesOk(View())
      modifies `peerConnections, `clientConnections
      ensures View() == old(View()).(slots := seq(|peers|, _ => None), clients := map[])
      ensures TablesOk(View())
    {
      while clientConnections != map[]
        invariant peerConnections == old(peerConnections)
        decreases clientConnections.Keys
      {
        var c :| c in clientConnections;
        clientConnections := clientConnections - {c};
      }
      peerConnections := [];
      for i := 0 to |peers|
        invariant |peerConnections| == i && forall k :: 0 <= k < i ==> peerConnections[k] == None
        invariant clientConnections == map[]
      {
        peerConnections := peerConnections + [None];
      }
    }
  }

  // ----- A whole incarnation -----

  /** The task that reads a client's socket and puts the client's id on every request it finds there. */
  datatype Reader = Reader(clientId: ClientId, socket: nat)

  /** A request, the socket it came in on, and the id it was given to the server under. */
  datatype Arrival = Arrival(socket: nat, from: ClientId, id: CommandId, kv: KVCommand)

  /**
   The tables together with what surrounds them: registered connections not yet applied, the
   readers, and as history variables the sockets ever used, the socket every id was given to,
   the ids applied so far, and the requests that came in.
   */
  datatype Incarnation = Incarnation(
    tables: Tables, transit: set<ClientConnection>, readers: set<Reader>,
    used: set<nat>, sockets: map<ClientId, nat>, seen: set<ClientId>, arrivals: seq<Arrival>)

  datatype Happening =
    | Registers(socket: nat)                   // a client connects on a new socket: it gets the next id
    | Applied(connection: ClientConnection)    // its connection reaches the tables
    | Arrives(reader: Reader, id: CommandId, kv: KVCommand)
    | PeerConnects(peerId: NodeId, socket: nat)
    | ClientCloses(clientId: ClientId)
    | PeerCloses(slot: nat)
    | SendsToClient(to: ClientId, msg: ServerMessage)
    | SendsToPeer(peerId: NodeId, message: ClusterMessage)
    | ShutsDown

  function Registered(n: Incarnation, socket: nat): Incarnation {
    var id := n.tables.maxClientId + 1;
    n.(tables := n.tables.(maxClientId := id), used := n.used + {socket}, sockets := n.sockets[id := socket],
       transit := n.transit + {ClientConnection(id, socket, true, [])}, readers := n.readers + {Reader(id, socket)})
  }

  function Happens(n: Incarnation, e: Happening): Incarnation {
    var t := n.tables;
    match e
    case Registers(socket) => if socket !in n.used then Registered(n, socket) else n
    case Applied(connection) =>
      if connection in n.transit then
        n.(tables := Connected(t, ToClient(connection)), transit := n.transit - {connection}, seen := n.seen + {connection.clientId})
      else n
    case Arrives(reader, id, kv) =>
      if reader in n.readers then n.(arrivals := n.arrivals + [Arrival(reader.socket, reader.clientId, id, kv)]) else n
    case PeerConnects(peer, socket) =>
      if socket !in n.used then
        n.(tables := Connected(t, ToPeer(PeerConnection(peer, socket, true, []))), used := n.used + {socket})
      else n
    case ClientCloses(c) =>
      if c in t.clients then n.(tables := t.(clients := t.clients[c := t.clients[c].(open := false)])) else n
    case PeerCloses(i) =>
      if i < |t.slots| && t.slots[i].Some? then n.(tables := t.(slots := t.slots[i := Some(t.slots[i].value.(open := false))])) else n
    case SendsToClient(to, msg) => n.(tables := t.(clients := SentToClient(t.clients, to, msg)))
    case SendsToPeer(to, msg) => n.(tables := SentToPeer(t, to, msg))
    case ShutsDown => n.(tables := t.(slots := seq(|t.peers|, _ => None), clients := map[]))
  }

  function Begun(peers: seq<NodeId>): Incarnation {
    Incarnation(Tables(peers, seq(|peers|, _ => None), map[], 0), {}, {}, {}, map[], {}, [])
  }

  function Life(peers: seq<NodeId>, events: seq<Happening>): Incarnation {
    if events == [] then Begun(peers)
    else Happens(Life(peers, events[..|events| - 1]), events[|events| - 1])
  }

  /** `id` was given to a client on `socket`. */
  predicate GivenTo(n: Incarnation, id: ClientId, socket: nat) {
    id in n.sockets && n.sockets[id] == socket
  }

  /** Ids and sockets belong together for good, one to one. */
  predicate IdsOk(n: Incarnation) {
    && (forall c :: c in n.sockets ==> c <= n.tables.maxClientId && n.sockets[c] in n.used)
    && (forall c, d :: c in n.sockets && d in n.sockets && n.sockets[c] == n.sockets[d] ==> c == d)
  }

  predicate TransitOk(n: Incarnation) {
    && (forall c :: c in n.transit ==> GivenTo(n, c.clientId, c.socket) && c.clientId !in n.seen)
    && (forall c, d :: c in n.transit && d in n.transit && c.clientId == d.clientId ==> c == d)
  }

  predicate RequestsOk(n: Incarnation) {
    && (forall r :: r in n.readers ==> GivenTo(n, r.clientId, r.socket))
    && (forall k :: 0 <= k < |n.arrivals| ==> GivenTo(n, n.arrivals[k].from, n.arrivals[k].socket))
  }

  /** Everything filed in the client table was applied, once, under the id its socket was given. */
  predicate FiledOk(n: Incarnation) {
    && (forall c :: c in n.seen ==> c in n.sockets)
    && (forall c :: c in n.tables.clients ==> c in n.seen && GivenTo(n, c, n.tables.clients[c].socket))
  }

  predicate LifeInv(n: Incarnation) {
    TablesOk(n.tables) && IdsOk(n) && TransitOk(n) && RequestsOk(n) && FiledOk(n)
  }

  lemma RegisteredKeepsInv(n: Incarnation, socket: nat)
    requires LifeInv(n) && socket !in n.used
    ensures LifeInv(Registered(n, socket))
  {
    var after := Registered(n, socket);
    forall c, s | GivenTo(n, c, s) ensures GivenTo(after, c, s) {
    }
    assert IdsOk(after) && TransitOk(after) && RequestsOk(after) && FiledOk(after);
  }

  /** A registered connection reaches the tables. */
  lemma AppliedKeepsInv(n: Incarnation, connection: ClientConnection)
    requires LifeInv(n) && connection in n.transit
    ensures LifeInv(Happens(n, Applied(connection)))
  {
  }

  /** Only the client table changes: connections leave it, close, or take a message. */
  lemma ClientsKeepInv(n: Incarnation, clients: map<ClientId, ClientConnection>)
    requires LifeInv(n)
    requires forall c :: c in clients ==>
               c in n.tables.clients && clients[c].clientId == c && clients[c].socket == n.tables.clients[c].socket
    ensures LifeInv(n.(tables := n.tables.(clients := clients)))
  {
  }

  /** Only slots change, each still holding nothing or a connection to its peer. */
  lemma SlotsKeepInv(n: Incarnation, slots: seq<Option<PeerConnection>>, used: set<nat>)
    requires LifeInv(n) && n.used <= used && TablesOk(n.tables.(slots := slots))
    ensures LifeInv(n.(tables := n.tables.(slots := slots), used := used))
  {
  }

  lemma ArrivesKeepsInv(n: Incarnation, reader: Reader, id: CommandId, kv: KVCommand)
    requires LifeInv(n)
    ensures LifeInv(Happens(n, Arrives(reader, id, kv)))
  {
  }

  lemma HappensKeepsInv(n: Incarnation, e: Happening)
    requires LifeInv(n)
    ensures LifeInv(Happens(n, e))
  {
    hide IdsOk, TransitOk, RequestsOk, FiledOk;
    var t := n.tables;
    match e
    case Registers(socket) =>
      if socket !in n.used {
        RegisteredKeepsInv(n, socket);
      }
    case Applied(connection) =>
      if connection in n.transit {
        AppliedKeepsInv(n, connection);
      }
    case Arrives(reader, id, kv) => ArrivesKeepsInv(n, reader, id, kv);
    case PeerConnects(peer, socket) =>
      if socket !in n.used {
        SlotsKeepInv(n, Connected(t, ToPeer(PeerConnection(peer, socket, true, []))).slots, n.used + {socket});
      }
    case ClientCloses(c) =>
      if c in t.clients {
        ClientsKeepInv(n, t.clients[c := t.clients[c].(open := false)]);
      }
    case PeerCloses(i) => SlotsKeepInv(n, Happens(n, e).tables.slots, n.used);
    case SendsToClient(to, msg) => ClientsKeepInv(n, SentToClient(t.clients, to, msg));
    case SendsToPeer(to, msg) => SlotsKeepInv(n, SentToPeer(t, to, msg).slots, n.used);
    case ShutsDown =>
      ClientsKeepInv(n, map[]);
      SlotsKeepInv(n.(tables := t.(clients := map[])), seq(|t.peers|, _ => None), n.used);
  }

  lemma BegunOk(peers: seq<NodeId>)
    ensures LifeInv(Begun(peers))
  {
  }

  lemma PeersStay(n: Incarnation, e: Happening)
    ensures Happens(n, e).tables.peers == n.tables.peers
  {
  }

  lemma {:induction false} LifeKeepsInv(peers: seq<NodeId>, events: seq<Happening>)
    ensures LifeInv(Life(peers, events)) && Life(peers, events).tables.peers == peers
  {
    hide LifeInv, Happens;
    if events == [] {
      BegunOk(peers);
    } else {
      var init, last := events[..|events| - 1], events[|events| - 1];
      LifeKeepsInv(peers, init);
      HappensKeepsInv(Life(peers, init), last);
      PeersStay(Life(peers, init), last);
    }
  }

  /** Through a whole incarnation, slot `i` only ever holds a connection to peer `i`. */
  lemma SlotsStayWithTheirPeers(peers: seq<NodeId>, events: seq<Happening>, i: nat)
    requires i < |peers|
    ensures var t := Life(peers, events).tables;
            |t.slots| == |peers| && (t.slots[i].Some? ==> t.slots[i].value.peerId == peers[i])
  {
    LifeKeepsInv(peers, events);
  }

  /** A new id was never given out before, and applying a connection displaces no other. */
  lemma ClientIdsAreNeverReused(peers: seq<NodeId>, events: seq<Happening>, socket: nat)
    ensures var n := Life(peers, events);
            && n.tables.maxClientId + 1 !in n.sockets
            && (forall c :: c in n.transit ==> c.clientId !in n.tables.clients)
  {
    LifeKeepsInv(peers, events);
  }

  /**
   A registered connection that reaches the tables is filed under its id as it is; nothing else in
   them changes.
   */
  lemma AppliedConnectionIsFiled(peers: seq<NodeId>, events: seq<Happening>, connection: ClientConnection)
    requires connection in Life(peers, events).transit
    ensures var t, after := Life(peers, events).tables, Life(peers, events + [Applied(connection)]).tables;
            && connection.clientId !in t.clients
            && after == Tables(peers, t.slots, t.clients[connection.clientId := connection], t.maxClientId)
  {
    LifeKeepsInv(peers, events);
    assert (events + [Applied(connection)])[..|events|] == events;
  }

  /** A new connection to a peer takes that peer's slot, whatever was in it; nothing else in the tables changes. */
  lemma PeerConnectionIsFiled(peers: seq<NodeId>, events: seq<Happening>, i: nat, socket: nat)
    requires i < |peers| && FirstAt(peers, i, peers[i]) && socket !in Life(peers, events).used
    ensures var t, after := Life(peers, events).tables, Life(peers, events + [PeerConnects(peers[i], socket)]).tables;
            && |t.slots| == |peers|
            && after == Tables(peers, t.slots[i := Some(PeerConnection(peers[i], socket, true, []))], t.clients, t.maxClientId)
  {
    LifeKeepsInv(peers, events);
    assert (events + [PeerConnects(peers[i], socket)])[..|events|] == events;
    assert Position(peers, peers[i]) == Some(i);
  }

  /** A client that connects on a new socket gets the next id, and its open connection is on its way to the tables. */
  lemma RegistrationIsOnItsWay(peers: seq<NodeId>, events: seq<Happening>, socket: nat)
    requires socket !in Life(peers, events).used
    ensures var t, after := Life(peers, events).tables, Life(peers, events + [Registers(socket)]);
            && after.tables == Tables(peers, t.slots, t.clients, t.maxClientId + 1)
            && ClientConnection(t.maxClientId + 1, socket, true, []) in after.transit
            && Reader(t.maxClientId + 1, socket) in after.readers
  {
    LifeKeepsInv(peers, events);
    assert (events + [Registers(socket)])[..|events|] == events;
  }

  /** A request a reader finds on its socket comes in under the reader's id. */
  lemma RequestComesIn(peers: seq<NodeId>, events: seq<Happening>, reader: Reader, id: CommandId, kv: KVCommand)
    requires reader in Life(peers, events).readers
    ensures Life(peers, events + [Arrives(reader, id, kv)]).arrivals ==
            Life(peers, events).arrivals + [Arrival(reader.socket, reader.clientId, id, kv)]
  {
    assert (events + [Arrives(reader, id, kv)])[..|events|] == events;
  }

  lemma FirstMessage(clients: map<ClientId, ClientConnection>, id: ClientId, socket: nat, msg: ServerMessage)
    ensures SentToClient(clients[id := ClientConnection(id, socket, true, [])], id, msg) ==
            clients[id := ClientConnection(id, socket, true, [msg])]
  {
    var none: seq<ServerMessage> := [];
    assert none + [msg] == [msg];
  }

  /** Once that connection is applied, it takes what is sent to the id. */
  lemma NewClientIsServed(peers: seq<NodeId>, events: seq<Happening>, socket: nat, msg: ServerMessage)
    requires socket !in Life(peers, events).used
    ensures var t := Life(peers, events).tables;
            var id := t.maxClientId + 1;
            var served := events + [Registers(socket)] + [Applied(ClientConnection(id, socket, true, []))] + [SendsToClient(id, msg)];
            Life(peers, served).tables == Tables(peers, t.slots, t.clients[id := ClientConnection(id, socket, true, [msg])], id)
  {
    hide LifeInv, SentToClient;
    var t := Life(peers, events).tables;
    var id := t.maxClientId + 1;
    var connection := ClientConnection(id, socket, true, []);
    var registered := events + [Registers(socket)];
    var applied := registered + [Applied(connection)];
    RegistrationIsOnItsWay(peers, events, socket);
    AppliedConnectionIsFiled(peers, registered, connection);
    FirstMessage(t.clients, id, socket, msg);
    assert (applied + [SendsToClient(id, msg)])[..|applied|] == applied;
  }

  /**
   A message for a peer joins the queue of the open connection in that peer's slot, which is
   otherwise left as it is; a closed one is dropped, and nothing else in the tables changes.
   */
  lemma PeerMessagesStayInTheirSlot(peers: seq<NodeId>, events: seq<Happening>, i: nat, message: ClusterMessage)
    requires i < |peers| && FirstAt(peers, i, peers[i])
    ensures var t, after := Life(peers, events).tables, Life(peers, events + [SendsToPeer(peers[i], message)]).tables;
            && |t.slots| == |peers|
            && after == Tables(peers, t.slots[i := QueuedOn(t.slots[i], message)], t.clients, t.maxClientId)
  {
    LifeKeepsInv(peers, events);
    assert (events + [SendsToPeer(peers[i], message)])[..|events|] == events;
    assert Position(peers, peers[i]) == Some(i);
  }

  /** Messages sent to a peer one after another wait on its connection in that order. */
  lemma PeerMessagesKeepOrder(peers: seq<NodeId>, events: seq<Happening>, i: nat, first: ClusterMessage, second: ClusterMessage)
    requires i < |peers| && FirstAt(peers, i, peers[i])
    requires |Life(peers, events).tables.slots| == |peers|
    requires var slot := Life(peers, events).tables.slots[i]; slot.Some? && slot.value.open
    ensures var t := Life(peers, events).tables;
            var after := Life(peers, events + [SendsToPeer(peers[i], first)] + [SendsToPeer(peers[i], second)]).tables;
            after == t.(slots := t.slots[i := Some(t.slots[i].value.(outgoing := t.slots[i].value.outgoing + [first, second]))])
  {
    LifeKeepsInv(peers, events);
    PeerMessagesStayInTheirSlot(peers, events, i, first);
    PeerMessagesStayInTheirSlot(peers, events + [SendsToPeer(peers[i], first)], i, second);
    var queue := Life(peers, events).tables.slots[i].value.outgoing;
    assert queue + [first] + [second] == queue + [first, second];
  }

  lemma HappensKeepsSockets(n: Incarnation, e: Happening, c: ClientId)
    requires c in n.sockets && c <= n.tables.maxClientId
    ensures c in Happens(n, e).sockets && Happens(n, e).sockets[c] == n.sockets[c]
  {
  }

  /** The socket an id was given to never changes, whatever happens. */
  lemma {:induction false} SocketsAreForLife(peers: seq<NodeId>, events: seq<Happening>, more: seq<Happening>, c: ClientId)
    requires c in Life(peers, events).sockets
    ensures c in Life(peers, events + more).sockets
    ensures Life(peers, events + more).sockets[c] == Life(peers, events).sockets[c]
  {
    if more == [] {
      assert events + more == events;
    } else {
      var init := more[..|more| - 1];
      SocketsAreForLife(peers, events, init, c);
      LifeKeepsInv(peers, events + init);
      HappensKeepsSockets(Life(peers, events + init), more[|more| - 1], c);
      assert (events + more)[..|events + more| - 1] == events + init;
    }
  }

  /** Between `t` and `after`, the open connection filed under `to`, if any, took `msg`; a closed one went; no other changed. */
  ghost predicate OnlyTakenBy(t: Tables, after: Tables, to: ClientId, msg: ServerMessage) {
    && (forall c :: c != to ==> (c in t.clients <==> c in after.clients))
    && (forall c :: c != to && c in t.clients ==> after.clients[c] == t.clients[c])
    && (to in after.clients <==> to in t.clients && t.clients[to].open)
    && (to in after.clients ==> after.clients[to] == t.clients[to].(outgoing := t.clients[to].outgoing + [msg]))
  }

  lemma SendIsTaken(n: Incarnation, to: ClientId, socket: nat, msg: ServerMessage)
    requires LifeInv(n) && GivenTo(n, to, socket)
    ensures OnlyTakenBy(n.tables, Happens(n, SendsToClient(to, msg)).tables, to, msg)
    ensures forall c :: c in n.tables.clients ==> (n.tables.clients[c].socket == socket <==> c == to)
  {
  }

  lemma ArrivedUnder(peers: seq<NodeId>, events: seq<Happening>, more: seq<Happening>, k: nat)
    requires k < |Life(peers, events).arrivals|
    ensures var arrival := Life(peers, events).arrivals[k];
            GivenTo(Life(peers, events + more), arrival.from, arrival.socket)
  {
    LifeKeepsInv(peers, events);
    SocketsAreForLife(peers, events, more, Life(peers, events).arrivals[k].from);
  }

  /**
   A request came in on a socket under some id. However the incarnation goes on, a message sent
   to that id is then taken, at the end of its queue, by the connection on that very socket
   if it is open; if it is closed it is dropped, and otherwise nothing happens. No other
   connection is touched, and no other connection is on that socket.
   */
  lemma AnswersGoBackOrNowhere(peers: seq<NodeId>, events: seq<Happening>, more: seq<Happening>, k: nat, msg: ServerMessage)
    requires k < |Life(peers, events).arrivals|
    ensures var arrival := Life(peers, events).arrivals[k];
            var n := Life(peers, events + more);
            var after := Life(peers, events + more + [SendsToClient(arrival.from, msg)]);
            && OnlyTakenBy(n.tables, after.tables, arrival.from, msg)
            && after.tables.slots == n.tables.slots
            && (forall c :: c in n.tables.clients ==> (n.tables.clients[c].socket == arrival.socket <==> c == arrival.from))
  {
    var arrival := Life(peers, events).arrivals[k];
    ArrivedUnder(peers, events, more, k);
    LifeKeepsInv(peers, events + more);
    SendIsTaken(Life(peers, events + more), arrival.from, arrival.socket, msg);
    assert (events + more + [SendsToClient(arrival.from, msg)])[..|events + more|] == events + more;
  }
}
