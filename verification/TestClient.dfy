/**
 The client as objects: the table of its connections to servers, the data it collects, and the
 dispatcher. Each handler is proved to take exactly the step of the client model.
 */
module Clients {
  import opened Wrappers
  import opened Commands
  import opened ClientModel

  datatype ClientMessage = Append(id: CommandId, kv: KVCommand)

  datatype ServerConnection = ServerConnection(open: bool, outgoing: seq<ClientMessage>)

  /** All connections but the one in slot `to`, if there is such a slot. */
  function Dropped(slots: seq<Option<ServerConnection>>, to: nat): (r: seq<Option<ServerConnection>>)
    ensures |r| == |slots| && forall i :: 0 <= i < |slots| ==> r[i] == if i == to then None else slots[i]
  {
    if to < |slots| then slots[to := None] else slots
  }

  /** The open connection in slot `to` has taken `msg`. */
  function Queued(slots: seq<Option<ServerConnection>>, to: nat, msg: ClientMessage): (r: seq<Option<ServerConnection>>)
    requires to < |slots| && slots[to].Some? && slots[to].value.open
    ensures |r| == |slots| && r[to] == Some(ServerConnection(true, slots[to].value.outgoing + [msg]))
    ensures forall i :: 0 <= i < |slots| && i != to ==> r[i] == slots[i]
  {
    slots[to := Some(ServerConnection(true, slots[to].value.outgoing + [msg]))]
  }

  /** Client-side connections: slot `i` is for server `i`. */
  class Network {
    var serverConnections: seq<Option<ServerConnection>>
    var servers: seq<(NodeId, string)>

    constructor (servers: seq<(NodeId, string)>, slots: seq<Option<ServerConnection>>)
      ensures serverConnections == slots && this.servers == servers
    {
      this.servers, serverConnections := servers, slots;
    }

    predicate Known(serverId: NodeId)
      reads `servers
    {
      exists i :: 0 <= i < |servers| && servers[i].0 == serverId
    }

    predicate IsConnected(serverId: NodeId)
      reads this
    {
      serverId < |serverConnections| && serverConnections[serverId].Some?
    }

    /** True when the connection's queue would take a message. */
    predicate Takes(serverId: NodeId)
      reads this
    {
      IsConnected(serverId) && serverConnections[serverId].value.open
    }

    /** A failed send never queued its message, and a connection it failed on is gone. */
    method Send(to: NodeId, msg: ClientMessage) returns (ok: bool)
      modifies `serverConnections
      ensures ok == old(Takes(to))
      ensures ok <==> to < |old(serverConnections)| && old(serverConnections[to].Some? && serverConnections[to].value.open)
      ensures |serverConnections| == |old(serverConnections)|
      ensures forall i :: 0 <= i < |serverConnections| && i != to ==> serverConnections[i] == old(serverConnections[i])
      ensures ok ==> serverConnections[to] ==
                     Some(old(serverConnections[to].value).(outgoing := old(serverConnections[to].value.outgoing) + [msg]))
      ensures !ok ==> !IsConnected(to)
      ensures !ok ==> serverConnections == Dropped(old(serverConnections), to)
    {
      if to >= |serverConnections| {
        return false;
      }
      if serverConnections[to].None? {
        return false;
      }
      var connection := serverConnections[to].value;
      if !connection.open {
        serverConnections := serverConnections[to := None];
        return false;
      }
      serverConnections := serverConnections[to := Some(connection.(outgoing := connection.outgoing + [msg]))];
      return true;
    }

    /** `resolved` says whether the server's address could be resolved this time. */
    method Reconnect(serverId: NodeId, resolved: bool) returns (ok: bool)
      requires serverId < |serverConnections|
      modifies `serverConnections
      ensures ok == (Known(serverId) && resolved)
      ensures ok <==> resolved && exists i :: 0 <= i < |servers| && servers[i].0 == serverId
      ensures serverConnections ==
              old(serverConnections)[serverId := if ok then Some(ServerConnection(true, [])) else None]
    {
      serverConnections := serverConnections[serverId := None];
      if !Known(serverId) {
        return false;
      }
      if !resolved {
        return false;
      }
      serverConnections := serverConnections[serverId := Some(ServerConnection(true, []))];
      return true;
    }

    method Shutdown()
      modifies `serverConnections
      ensures serverConnections == seq(|old(serverConnections)|, _ => None)
    {
      var connectionCount := |serverConnections|;
      serverConnections := [];
      for i := 0 to connectionCount
        invariant |serverConnections| == i && forall k :: 0 <= k < i ==> serverConnections[k] == None
      {
        serverConnections := serverConnections + [None];
      }
    }
  }

  class ClientData {
    var requestData: seq<RequestData>
    var count: nat

    constructor ()
      ensures requestData == [] && count == 0
    {
      requestData, count := [], 0;
    }

    method NewRequest(isWrite: bool, now: int)
      modifies `requestData
      ensures requestData == old(requestData) + [RequestData(now, isWrite, None)]
    {
      requestData := requestData + [RequestData(now, isWrite, None)];
    }

    method NewResponse(commandId: CommandId, now: int)
      requires commandId < |requestData|
      modifies this
      ensures requestData == old(requestData)[commandId := old(requestData[commandId]).(responseTime := Some(now))]
      ensures count == old(count) + 1
    {
      requestData := requestData[commandId := requestData[commandId].(responseTime := Some(now))];
      count := count + 1;
    }

    function ResponseCount(): nat
      reads this
    {
      count
    }

    function RequestCount(): nat
      reads this
    {
      |requestData|
    }
  }

  /** A client's steps one after another, with the replies they give. */
  function Steps(c: Client, actions: seq<Action>): (Client, seq<(nat, Reply)>) {
    if actions == [] then (c, [])
    else
      var (before, replies) := Steps(c, actions[..|actions| - 1]);
      var (after, effect) := Step(before, actions[|actions| - 1]);
      (after, replies + (if effect.reply.Some? then [effect.reply.value] else []))
  }

  lemma StepsSnoc(c: Client, actions: seq<Action>, last: Action)
    ensures var (before, replies) := Steps(c, actions);
            var (after, effect) := Step(before, last);
            Steps(c, actions + [last]) == (after, replies + (if effect.reply.Some? then [effect.reply.value] else []))
  {
    assert (actions + [last])[..|actions|] == actions;
  }

  lemma {:induction false} StepsAppend(c: Client, a: seq<Action>, b: seq<Action>)
    ensures var (mid, told) := Steps(c, a);
            var (after, more) := Steps(mid, b);
            Steps(c, a + b) == (after, told + more)
  {
    var (mid, told) := Steps(c, a);
    if b == [] {
      assert a + b == a && told + [] == told;
    } else {
      var init, last := b[..|b| - 1], b[|b| - 1];
      StepsAppend(c, a, init);
      assert (a + b)[..|a + b| - 1] == a + init;
      var (before, more) := Steps(mid, init);
      var effect := Step(before, last).1;
      var reply := if effect.reply.Some? then [effect.reply.value] else [];
      assert told + (more + reply) == told + more + reply;
    }
  }

  // ----- Failing what is pending -----

  /** `ids` lists the keys of `pending`, each once: the order in which a hash map gives them. */
  ghost predicate Lists(pending: map<nat, nat>, ids: seq<nat>) {
    && (forall id :: id in pending <==> id in ids)
    && (forall i, j :: 0 <= i < j < |ids| ==> ids[i] != ids[j])
  }

  /** The caller of each of `ids` in `pending` is told that the connection was lost. */
  function Losses(pending: map<nat, nat>, ids: seq<nat>): (r: seq<(nat, Reply)>)
    requires forall i :: 0 <= i < |ids| ==> ids[i] in pending
    ensures |r| == |ids|
    ensures forall i :: 0 <= i < |ids| ==> r[i] == (pending[ids[i]], Error("Error: connection lost"))
  {
    seq(|ids|, i requires 0 <= i < |ids| => (pending[ids[i]], LOST))
  }

  lemma LossesSnoc(pending: map<nat, nat>, ids: seq<nat>, id: nat)
    requires id in pending && forall i :: 0 <= i < |ids| ==> ids[i] in pending
    ensures Losses(pending, ids + [id]) == Losses(pending, ids) + [(pending[id], LOST)]
  {
  }

  function PutFailures(ids: seq<nat>): (r: seq<Action>)
    ensures |r| == |ids| && forall i :: 0 <= i < |ids| ==> r[i] == FailPut(ids[i])
  {
    seq(|ids|, i requires 0 <= i < |ids| => FailPut(ids[i]))
  }

  function GetFailures(ids: seq<nat>): (r: seq<Action>)
    ensures |r| == |ids| && forall i :: 0 <= i < |ids| ==> r[i] == FailGet(ids[i])
  {
    seq(|ids|, i requires 0 <= i < |ids| => FailGet(ids[i]))
  }

  /** `pending` without the keys in `ids`. */
  function Without(pending: map<nat, nat>, ids: seq<nat>): map<nat, nat> {
    map id | id in pending && id !in ids :: pending[id]
  }

  /** Part of a listing, on the way to all of it. */
  predicate ListsSome(pending: map<nat, nat>, ids: seq<nat>) {
    && (forall i :: 0 <= i < |ids| ==> ids[i] in pending)
    && (forall i, j :: 0 <= i < j < |ids| ==> ids[i] != ids[j])
  }

  lemma {:induction false} PutsFail(c: Client, ids: seq<nat>)
    requires c.mode.Recovering? && ListsSome(c.pendingPuts, ids)
    ensures Steps(c, PutFailures(ids)) == (c.(pendingPuts := Without(c.pendingPuts, ids)), Losses(c.pendingPuts, ids))
  {
    if ids == [] {
      assert Without(c.pendingPuts, ids) == c.pendingPuts;
    } else {
      var init, id := ids[..|ids| - 1], ids[|ids| - 1];
      PutsFail(c, init);
      assert PutFailures(ids) == PutFailures(init) + [FailPut(id)];
      StepsSnoc(c, PutFailures(init), FailPut(id));
      assert ids == init + [id];
      LossesSnoc(c.pendingPuts, init, id);
      assert Without(c.pendingPuts, ids) == Without(c.pendingPuts, init) - {id};
    }
  }

  lemma {:induction false} GetsFail(c: Client, ids: seq<nat>)
    requires c.mode.Recovering? && c.pendingPuts == map[] && ListsSome(c.pendingGets, ids)
    ensures Steps(c, GetFailures(ids)) == (c.(pendingGets := Without(c.pendingGets, ids)), Losses(c.pendingGets, ids))
  {
    if ids == [] {
      assert Without(c.pendingGets, ids) == c.pendingGets;
    } else {
      var init, id := ids[..|ids| - 1], ids[|ids| - 1];
      GetsFail(c, init);
      assert GetFailures(ids) == GetFailures(init) + [FailGet(id)];
      StepsSnoc(c, GetFailures(init), FailGet(id));
      assert ids == init + [id];
      LossesSnoc(c.pendingGets, init, id);
      assert Without(c.pendingGets, ids) == Without(c.pendingGets, init) - {id};
    }
  }

  /** Failing everything pending, in any order, is so many failing steps of the model, and tells everybody once. */
  lemma AllFail(c: Client, puts: seq<nat>, gets: seq<nat>)
    requires c.mode.Recovering? && Lists(c.pendingPuts, puts) && Lists(c.pendingGets, gets)
    ensures Steps(c, PutFailures(puts) + GetFailures(gets)) ==
            (c.(pendingPuts := map[], pendingGets := map[]), Losses(c.pendingPuts, puts) + Losses(c.pendingGets, gets))
  {
    var mid := c.(pendingPuts := map[]);
    PutsFail(c, puts);
    assert Without(c.pendingPuts, puts) == map[];
    GetsFail(mid, gets);
    assert Without(c.pendingGets, gets) == map[];
    StepsAppend(c, PutFailures(puts), GetFailures(gets));
  }

  lemma {:induction false} StepsCons(c: Client, first: Action, next: Client, rest: seq<Action>)
    requires Step(c, first) == (next, NOTHING)
    ensures Steps(c, [first] + rest) == Steps(next, rest)
  {
    if rest == [] {
      var none: seq<(nat, Reply)> := [];
      assert [first] + rest == [] + [first] && none + none == none;
      StepsSnoc(c, [], first);
      assert Steps(c, []) == (c, none);
    } else {
      var init, last := rest[..|rest| - 1], rest[|rest| - 1];
      StepsCons(c, first, next, init);
      assert [first] + rest == ([first] + init) + [last];
      StepsSnoc(c, [first] + init, last);
      assert rest == init + [last];
    }
  }

  class TestClient {
    const network: Network
    const clientData: ClientData
    const activeServer: NodeId
    var nextRequestId: nat
    var pendingGets: map<nat, nat>  // to each id, the caller waiting for it
    var pendingPuts: map<nat, nat>
    ghost var issued: seq<Issue>
    ghost var replies: seq<(nat, Reply)>

    constructor (network: Network, activeServer: NodeId)
      requires network.IsConnected(activeServer)
      ensures this.network == network && this.activeServer == activeServer && fresh(clientData)
      ensures View(Running) == INIT && replies == []
    {
      this.network, this.activeServer := network, activeServer;
      clientData := new ClientData();
      nextRequestId, pendingGets, pendingPuts := 0, map[], map[];
      issued, replies := [], [];
    }

    ghost function View(mode: Mode): Client
      reads this, network, clientData
    {
      Client(nextRequestId, clientData.requestData, clientData.count, pendingPuts, pendingGets,
             network.IsConnected(activeServer), mode, issued)
    }

    method SendRequestManual(cmd: KVCommand, now: int) returns (ok: bool)
      modifies network`serverConnections, clientData`requestData, `nextRequestId
      ensures ok == old(network.Takes(activeServer)) && ok == network.IsConnected(activeServer)
      ensures ok ==>
                && nextRequestId == old(nextRequestId) + 1
                && clientData.requestData == old(clientData.requestData) + [RequestData(now, cmd.Put?, None)]
                && network.serverConnections == Queued(old(network.serverConnections), activeServer, Append(old(nextRequestId), cmd))
      ensures !ok ==>
                && nextRequestId == old(nextRequestId) && clientData.requestData == old(clientData.requestData)
                && network.serverConnections == Dropped(old(network.serverConnections), activeServer)
    {
      var isWrite := cmd.Put?;
      var request := Append(nextRequestId, cmd);
      ok := network.Send(activeServer, request);
      if ok {
        clientData.NewRequest(isWrite, now);
        nextRequestId := nextRequestId + 1;
      }
    }

    /** A call from the HTTP side. */
    method Dispatch(op: ApiCommand, caller: nat, now: int)
      modifies this, network`serverConnections, clientData`requestData
      ensures var (after, effect) := Step(old(View(Running)), Accept(caller, op, old(network.Takes(activeServer)), now));
              && View(Running) == after
              && replies == old(replies) + (if effect.reply.Some? then [effect.reply.value] else [])
              && (effect.request.Some? ==>
                    network.IsConnected(activeServer) &&
                    network.serverConnections[activeServer].value.outgoing ==
                    old(network.serverConnections[activeServer].value.outgoing) +
                    [Append(effect.request.value.0, effect.request.value.1)])
      ensures network.IsConnected(activeServer) <==> old(network.Takes(activeServer))
      ensures old(network.Takes(activeServer)) ==>
                && network.serverConnections == Queued(old(network.serverConnections), activeServer, Append(old(nextRequestId), ToKv(op)))
                && nextRequestId == old(nextRequestId) + 1
                && clientData.requestData == old(clientData.requestData) + [RequestData(now, op.ApiPut?, None)]
                && pendingPuts == (if op.ApiPut? then old(pendingPuts)[old(nextRequestId) := caller] else old(pendingPuts))
                && pendingGets == (if op.ApiGet? then old(pendingGets)[old(nextRequestId) := caller] else old(pendingGets))
                && replies == old(replies)
      ensures !old(network.Takes(activeServer)) ==>
                && network.serverConnections == Dropped(old(network.serverConnections), activeServer)
                && nextRequestId == old(nextRequestId) && clientData.requestData == old(clientData.requestData)
                && pendingPuts == old(pendingPuts) && pendingGets == old(pendingGets)
                && replies == old(replies) + [(caller, Error("Error: server disconnected"))]
    {
      match op
      case ApiPut(k, v) =>
        var key := nextRequestId;
        var ok := SendRequestManual(Put(k, v), now);
        if !ok {
          replies := replies + [(caller, NOT_SENT)];
        } else {
          pendingPuts := pendingPuts[key := caller];
          issued := issued + [Issue(caller, op)];
        }
      case ApiGet(k) =>
        var key := nextRequestId;
        var ok := SendRequestManual(Get(k), now);
        if !ok {
          replies := replies + [(caller, NOT_SENT)];
        } else {
          pendingGets := pendingGets[key := caller];
          issued := issued + [Issue(caller, op)];
        }
    }

    /** A message from the server. An answer must be for an id the table has; the system never sends another. */
    method HandleServerMessage(msg: ServerMessage, now: int)
      requires !msg.StartSignal? ==> msg.id < |clientData.requestData|
      modifies this, clientData
      ensures var (after, effect) := Step(old(View(Running)), Receive(msg, now));
              && View(Running) == after
              && replies == old(replies) + (if effect.reply.Some? then [effect.reply.value] else [])
      ensures nextRequestId == old(nextRequestId)
      ensures pendingPuts == (if msg.Write? then old(pendingPuts) - {msg.id} else old(pendingPuts))
      ensures pendingGets == (if msg.Read? then old(pendingGets) - {msg.id} else old(pendingGets))
      ensures replies == old(replies) + (if msg.Write? && msg.id in old(pendingPuts) then [(old(pendingPuts)[msg.id], Answer("Ok"))]
                                         else if msg.Read? && msg.id in old(pendingGets) then [(old(pendingGets)[msg.id], Answer(Render(msg.value)))]
                                         else [])
      ensures msg.StartSignal? ==> clientData.requestData == old(clientData.requestData) && clientData.count == old(clientData.count)
      ensures !msg.StartSignal? ==>
                && clientData.count == old(clientData.count) + 1
                && |clientData.requestData| == |old(clientData.requestData)|
                && clientData.requestData[msg.id] == old(clientData.requestData[msg.id]).(responseTime := Some(now))
                && forall i :: 0 <= i < |clientData.requestData| && i != msg.id ==> clientData.requestData[i] == old(clientData.requestData[i])
    {
      match msg
      case StartSignal(_) =>
      case Write(id) =>
        if id in pendingPuts {
          replies := replies + [(pendingPuts[id], Answer("Ok"))];
          pendingPuts := pendingPuts - {id};
        } else {
          assert pendingPuts - {id} == pendingPuts;
        }
        clientData.NewResponse(id, now);
      case Read(id, value) =>
        if id in pendingGets {
          var result := if value.Some? then value.value else "Key not found";
          replies := replies + [(pendingGets[id], Answer(result))];
          pendingGets := pendingGets - {id};
        } else {
          assert pendingGets - {id} == pendingGets;
        }
        clientData.NewResponse(id, now);
    }

    /** The puts are failed in the order the hash map gives them. */
    method DrainPuts() returns (ghost ids: seq<nat>)
      modifies `pendingPuts, `replies
      ensures Lists(old(pendingPuts), ids)
      ensures pendingPuts == map[]
      ensures replies == old(replies) + Losses(old(pendingPuts), ids)
    {
      ids := [];
      ghost var pending := pendingPuts;
      assert pending == Without(pending, ids);
      while pendingPuts != map[]
        invariant ListsSome(pending, ids)
        invariant pendingPuts == Without(pending, ids)
        invariant replies == old(replies) + Losses(pending, ids)
        decreases pendingPuts.Keys
      {
        var id :| id in pendingPuts;
        LossesSnoc(pending, ids, id);
        replies := replies + [(pendingPuts[id], LOST)];
        pendingPuts := pendingPuts - {id};
        ids := ids + [id];
      }
    }

    /** Then the gets. */
    method DrainGets() returns (ghost ids: seq<nat>)
      modifies `pendingGets, `replies
      ensures Lists(old(pendingGets), ids)
      ensures pendingGets == map[]
      ensures replies == old(replies) + Losses(old(pendingGets), ids)
    {
      ids := [];
      ghost var pending := pendingGets;
      assert pending == Without(pending, ids);
      while pendingGets != map[]
        invariant ListsSome(pending, ids)
        invariant pendingGets == Without(pending, ids)
        invariant replies == old(replies) + Losses(pending, ids)
        decreases pendingGets.Keys
      {
        var id :| id in pendingGets;
        LossesSnoc(pending, ids, id);
        replies := replies + [(pendingGets[id], LOST)];
        pendingGets := pendingGets - {id};
        ids := ids + [id];
      }
    }

    /**
     Everybody waiting is told once that the connection was lost, first those of the puts, then
     those of the gets, and nobody else: the failing steps of the model, one for each request.
     */
    method FailAllPending() returns (ghost puts: seq<nat>, ghost gets: seq<nat>)
      modifies `pendingPuts, `pendingGets, `replies
      ensures Lists(old(pendingPuts), puts) && Lists(old(pendingGets), gets)
      ensures replies == old(replies) + Losses(old(pendingPuts), puts) + Losses(old(pendingGets), gets)
      ensures pendingPuts == map[] && pendingGets == map[]
      ensures Steps(old(View(Recovering)), PutFailures(puts) + GetFailures(gets)) ==
              (View(Recovering), Losses(old(pendingPuts), puts) + Losses(old(pendingGets), gets))
    {
      ghost var start := View(Recovering);
      puts := DrainPuts();
      gets := DrainGets();
      AllFail(start, puts, gets);
    }

    /** One turn of the reconnection loop. */
    method TryReconnect(resolved: bool) returns (ok: bool)
      requires activeServer < |network.serverConnections|
      requires pendingPuts == map[] && pendingGets == map[]
      modifies network`serverConnections
      ensures ok == (network.Known(activeServer) && resolved)
      ensures View(if ok then Running else Recovering) == Step(old(View(Recovering)), Reconnect(ok)).0
      ensures network.serverConnections ==
              old(network.serverConnections)[activeServer := if ok then Some(ServerConnection(true, [])) else None]
    {
      ok := network.Reconnect(activeServer, resolved);
    }

    /** The periodic check: a lost connection fails everybody waiting. Says whether reconnecting must follow. */
    method CheckConnection() returns (lost: bool, ghost puts: seq<nat>, ghost gets: seq<nat>)
      modifies `pendingPuts, `pendingGets, `replies
      ensures lost <==> !network.IsConnected(activeServer)
      ensures lost <==> activeServer >= |network.serverConnections| || network.serverConnections[activeServer].None?
      ensures !lost ==> pendingPuts == old(pendingPuts) && pendingGets == old(pendingGets) && replies == old(replies)
      ensures lost ==>
                && Lists(old(pendingPuts), puts) && Lists(old(pendingGets), gets)
                && replies == old(replies) + Losses(old(pendingPuts), puts) + Losses(old(pendingGets), gets)
                && pendingPuts == map[] && pendingGets == map[]
                && Steps(old(View(Running)), [Detect(false)] + (PutFailures(puts) + GetFailures(gets))) ==
                   (View(Recovering), Losses(old(pendingPuts), puts) + Losses(old(pendingGets), gets))
    {
      lost, puts, gets := !network.IsConnected(activeServer), [], [];
      if lost {
        ghost var start := View(Running);
        puts, gets := FailAllPending();
        StepsCons(start, Detect(false), start.(mode := Recovering), PutFailures(puts) + GetFailures(gets));
      }
    }
  }
}
