/** Whole runs of one client process, whatever messages arrive: what it owes its callers and what it counts. */
module ClientRuns {
  import opened Wrappers
  import opened Commands
  import opened ClientModel

  /**
   A client with the record of its run: how many calls it took (they are numbered in that
   order), every reply it gave, and the id of every answer it recorded.
   */
  datatype Trace = Trace(client: Client, accepted: nat, replies: seq<(nat, Reply)>, received: seq<nat>)

  function Do(t: Trace, a: Action): Trace {
    var action := if a.Accept? then a.(caller := t.accepted) else a;
    var (client, effect) := Step(t.client, action);
    Trace(client,
          t.accepted + (if a.Accept? && Enabled(t.client, a) then 1 else 0),
          t.replies + (if effect.reply.Some? then [effect.reply.value] else []),
          t.received + (if a.Receive? && Enabled(t.client, a) && !a.msg.StartSignal? && a.msg.id < |t.client.requestData| then [a.msg.id] else []))
  }

  function Run(actions: seq<Action>): Trace {
    if actions == [] then Trace(INIT, 0, [], []) else Do(Run(actions[..|actions| - 1]), actions[|actions| - 1])
  }

  // ----- Callers -----

  /** Some pending request in `pending` is `call`'s. */
  predicate Among(pending: map<nat, nat>, call: nat) {
    exists id :: id in pending && pending[id] == call
  }

  predicate Waits(c: Client, call: nat) {
    Among(c.pendingPuts, call) || Among(c.pendingGets, call)
  }

  predicate Told(replies: seq<(nat, Reply)>, call: nat) {
    exists j :: 0 <= j < |replies| && replies[j].0 == call
  }

  predicate CallersOk(c: Client, accepted: nat) {
    && (forall id :: 0 <= id < |c.issued| ==> c.issued[id].caller < accepted)
    && (forall i, j :: 0 <= i < j < |c.issued| ==> c.issued[i].caller < c.issued[j].caller)
  }

  predicate RepliesOk(replies: seq<(nat, Reply)>, accepted: nat) {
    && (forall j :: 0 <= j < |replies| ==> replies[j].0 < accepted)
    && (forall i, j :: 0 <= i < j < |replies| ==> replies[i].0 != replies[j].0)
  }

  /** Every accepted call is waiting or has been told, and not both. */
  predicate Owed(c: Client, accepted: nat, replies: seq<(nat, Reply)>) {
    forall call :: 0 <= call < accepted ==> (Waits(c, call) <==> !Told(replies, call))
  }

  predicate Fair(c: Client, accepted: nat, replies: seq<(nat, Reply)>) {
    && TableInv(c)
    && CallersOk(c, accepted)
    && RepliesOk(replies, accepted)
    && Owed(c, accepted, replies)
    && |replies| + |c.pendingPuts| + |c.pendingGets| == accepted
  }

  lemma WaitingIsIssued(c: Client, call: nat, accepted: nat)
    requires TableInv(c) && CallersOk(c, accepted) && Waits(c, call)
    ensures call < accepted
  {
  }

  lemma ToldMore(replies: seq<(nat, Reply)>, more: (nat, Reply), call: nat)
    ensures Told(replies + [more], call) <==> Told(replies, call) || more.0 == call
  {
    var all := replies + [more];
    assert all[|replies|] == more;
    if Told(replies, call) {
      var j :| 0 <= j < |replies| && replies[j].0 == call;
      assert all[j].0 == call;
    }
    if Told(all, call) && more.0 != call {
      var j :| 0 <= j < |all| && all[j].0 == call;
      assert replies[j].0 == call;
    }
  }

  lemma AmongWithout(issued: seq<Issue>, pending: map<nat, nat>, id: nat, call: nat)
    requires forall i :: i in pending ==> i < |issued| && pending[i] == issued[i].caller
    requires forall i, j :: 0 <= i < j < |issued| ==> issued[i].caller < issued[j].caller
    requires id < |issued|
    ensures Among(pending - {id}, call) <==> Among(pending, call) && call != issued[id].caller
  {
    if Among(pending, call) && call != issued[id].caller {
      var i :| i in pending && pending[i] == call;
      assert i in pending - {id} && (pending - {id})[i] == call;
    }
  }

  /** Removing pending request `id` leaves everyone but its caller waiting. */
  lemma WaitsWithout(c: Client, id: nat, call: nat, accepted: nat)
    requires TableInv(c) && CallersOk(c, accepted)
    requires id < |c.issued| && (id in c.pendingPuts || id in c.pendingGets)
    ensures Waits(Without(c, id), call) <==> Waits(c, call) && call != c.issued[id].caller
  {
    AmongWithout(c.issued, c.pendingPuts, id, call);
    AmongWithout(c.issued, c.pendingGets, id, call);
  }

  /** Two clients between which callers see no difference. */
  predicate SameTables(c: Client, d: Client) {
    && c.issued == d.issued && c.pendingPuts == d.pendingPuts && c.pendingGets == d.pendingGets
  }

  function Without(c: Client, id: nat): Client {
    c.(pendingPuts := c.pendingPuts - {id}, pendingGets := c.pendingGets - {id})
  }

  lemma SameTablesOwe(c: Client, d: Client, accepted: nat, replies: seq<(nat, Reply)>)
    requires SameTables(c, d)
    ensures Owed(c, accepted, replies) <==> Owed(d, accepted, replies)
    ensures CallersOk(c, accepted) <==> CallersOk(d, accepted)
  {
    forall call ensures Waits(d, call) <==> Waits(c, call) {
    }
  }

  lemma SameTablesFair(c: Client, d: Client, accepted: nat, replies: seq<(nat, Reply)>)
    requires Fair(c, accepted, replies) && SameTables(c, d) && TableInv(d)
    ensures Fair(d, accepted, replies)
  {
    SameTablesOwe(c, d, accepted, replies);
  }

  lemma RepliesMore(replies: seq<(nat, Reply)>, accepted: nat, more: (nat, Reply))
    requires RepliesOk(replies, accepted) && !Told(replies, more.0) && more.0 < accepted
    ensures RepliesOk(replies + [more], accepted)
  {
    forall j | 0 <= j < |replies| ensures replies[j].0 != more.0 {
    }
  }

  lemma ReplyOwed(c: Client, accepted: nat, replies: seq<(nat, Reply)>, id: nat, reply: Reply)
    requires TableInv(c) && CallersOk(c, accepted) && Owed(c, accepted, replies)
    requires id < |c.issued| && (id in c.pendingPuts || id in c.pendingGets)
    ensures Owed(Without(c, id), accepted, replies + [(c.issued[id].caller, reply)])
    ensures !Told(replies, c.issued[id].caller)
  {
    var told := c.issued[id].caller;
    assert Waits(c, told);
    forall call | 0 <= call < accepted
      ensures Waits(Without(c, id), call) <==> !Told(replies + [(told, reply)], call)
    {
      WaitsWithout(c, id, call, accepted);
      ToldMore(replies, (told, reply), call);
    }
  }

  /** Telling the caller of a pending request. */
  lemma ReplyFair(c: Client, d: Client, accepted: nat, replies: seq<(nat, Reply)>, id: nat, reply: Reply)
    requires Fair(c, accepted, replies) && TableInv(d)
    requires id < |c.issued| && (id in c.pendingPuts || id in c.pendingGets)
    requires SameTables(Without(c, id), d)
    ensures Fair(d, accepted, replies + [(c.issued[id].caller, reply)])
  {
    ReplyOwed(c, accepted, replies, id, reply);
    RepliesMore(replies, accepted, (c.issued[id].caller, reply));
    SameTablesOwe(Without(c, id), d, accepted, replies + [(c.issued[id].caller, reply)]);
    SizesWithout(c, id);
  }

  lemma SizesWithout(c: Client, id: nat)
    requires TableInv(c) && (id in c.pendingPuts || id in c.pendingGets)
    ensures |c.pendingPuts - {id}| + |c.pendingGets - {id}| + 1 == |c.pendingPuts| + |c.pendingGets|
  {
    PendingDisjoint(c);
    SizeWithout(c.pendingPuts, id);
    SizeWithout(c.pendingGets, id);
  }

  lemma SizeWithout(m: map<nat, nat>, id: nat)
    ensures |m - {id}| == if id in m then |m| - 1 else |m|
  {
    assert (m - {id}).Keys == m.Keys - {id};
    assert |(m - {id}).Keys| == |m - {id}| && |m.Keys| == |m|;
  }

  lemma RefusedFair(c: Client, accepted: nat, replies: seq<(nat, Reply)>)
    requires Fair(c, accepted, replies)
    ensures Fair(c.(connected := false), accepted + 1, replies + [(accepted, NOT_SENT)])
  {
    var d := c.(connected := false);
    forall call | 0 <= call < accepted + 1
      ensures Waits(d, call) <==> !Told(replies + [(accepted, NOT_SENT)], call)
    {
      ToldMore(replies, (accepted, NOT_SENT), call);
      assert Waits(d, call) <==> Waits(c, call);
      if Waits(c, call) {
        WaitingIsIssued(c, call, accepted);
      }
    }
  }

  lemma AmongWith(pending: map<nat, nat>, id: nat, caller: nat, call: nat)
    requires id !in pending
    ensures Among(pending[id := caller], call) <==> Among(pending, call) || call == caller
  {
    var more := pending[id := caller];
    assert id in more && more[id] == caller;
    if Among(pending, call) {
      var i :| i in pending && pending[i] == call;
      assert i in more && more[i] == call;
    }
  }

  lemma WaitsAfterSend(c: Client, caller: nat, op: ApiCommand, time: int, call: nat)
    requires TableInv(c)
    ensures Waits(StepSend(c, caller, op, time).0, call) <==> Waits(c, call) || call == caller
  {
    AmongWith(c.pendingPuts, c.nextRequestId, caller, call);
    AmongWith(c.pendingGets, c.nextRequestId, caller, call);
  }

  lemma SentOwed(c: Client, accepted: nat, replies: seq<(nat, Reply)>, op: ApiCommand, time: int)
    requires TableInv(c) && RepliesOk(replies, accepted) && Owed(c, accepted, replies)
    ensures Owed(StepSend(c, accepted, op, time).0, accepted + 1, replies)
  {
    var d := StepSend(c, accepted, op, time).0;
    forall call | 0 <= call < accepted + 1 ensures Waits(d, call) <==> !Told(replies, call) {
      WaitsAfterSend(c, accepted, op, time, call);
    }
  }

  lemma SizeWith(m: map<nat, nat>, id: nat, caller: nat)
    requires id !in m
    ensures |m[id := caller]| == |m| + 1
  {
    SizeWithout(m[id := caller], id);
    assert m[id := caller] - {id} == m;
  }

  lemma SentFair(c: Client, accepted: nat, replies: seq<(nat, Reply)>, op: ApiCommand, time: int)
    requires Fair(c, accepted, replies)
    ensures TableInv(StepSend(c, accepted, op, time).0) ==> Fair(StepSend(c, accepted, op, time).0, accepted + 1, replies)
  {
    SentOwed(c, accepted, replies, op, time);
    SizeWith(c.pendingPuts, c.nextRequestId, accepted);
    SizeWith(c.pendingGets, c.nextRequestId, accepted);
  }

  /** What receiving does to the pending tables. */
  lemma ReceiveShape(c: Client, msg: ServerMessage, time: int)
    requires TableInv(c)
    ensures var (d, effect) := StepReceive(c, msg, time);
            if effect.reply.Some? then
              && !msg.StartSignal? && msg.id < |c.issued|
              && (msg.id in c.pendingPuts || msg.id in c.pendingGets)
              && SameTables(Without(c, msg.id), d)
              && effect.reply.value.0 == c.issued[msg.id].caller
            else SameTables(c, d)
  {
    PendingDisjoint(c);
    assert !msg.StartSignal? && msg.id !in c.pendingPuts ==> c.pendingPuts - {msg.id} == c.pendingPuts;
    assert !msg.StartSignal? && msg.id !in c.pendingGets ==> c.pendingGets - {msg.id} == c.pendingGets;
  }

  lemma ReceiveFair(c: Client, d: Client, effect: Effect, accepted: nat, replies: seq<(nat, Reply)>, msg: ServerMessage, time: int)
    requires Fair(c, accepted, replies) && TableInv(d)
    requires (d, effect) == StepReceive(c, msg, time)
    ensures Fair(d, accepted, replies + (if effect.reply.Some? then [effect.reply.value] else []))
  {
    ReceiveShape(c, msg, time);
    if effect.reply.Some? {
      ReplyFair(c, d, accepted, replies, msg.id, effect.reply.value.1);
      assert effect.reply.value == (c.issued[msg.id].caller, effect.reply.value.1);
    } else {
      assert replies + [] == replies;
      SameTablesFair(c, d, accepted, replies);
    }
  }

  lemma FailShape(c: Client, a: Action)
    requires TableInv(c) && Enabled(c, a) && (a.FailPut? || a.FailGet?)
    ensures var (d, effect) := Step(c, a);
            && a.id < |c.issued|
            && (a.id in c.pendingPuts || a.id in c.pendingGets)
            && SameTables(Without(c, a.id), d)
            && effect.reply == Some((c.issued[a.id].caller, LOST))
  {
    PendingDisjoint(c);
    assert a.FailPut? ==> c.pendingGets - {a.id} == c.pendingGets;
    assert a.FailGet? ==> c.pendingPuts - {a.id} == c.pendingPuts;
  }

  lemma FailFair(c: Client, d: Client, accepted: nat, replies: seq<(nat, Reply)>, a: Action)
    requires Fair(c, accepted, replies) && Enabled(c, a) && (a.FailPut? || a.FailGet?)
    requires d == Step(c, a).0 && TableInv(d)
    ensures a.id < |c.issued| && Step(c, a).1.reply == Some((c.issued[a.id].caller, LOST))
    ensures Fair(d, accepted, replies + [(c.issued[a.id].caller, LOST)])
  {
    FailShape(c, a);
    ReplyFair(c, d, accepted, replies, a.id, LOST);
  }

  lemma AcceptFair(c: Client, accepted: nat, replies: seq<(nat, Reply)>, a: Action)
    requires Fair(c, accepted, replies) && Enabled(c, a) && a.Accept? && a.caller == accepted
    requires TableInv(Step(c, a).0)
    ensures var (d, effect) := Step(c, a);
            Fair(d, accepted + 1, replies + (if effect.reply.Some? then [effect.reply.value] else []))
  {
    assert replies + [] == replies;
    if c.connected && a.accepted {
      SentFair(c, accepted, replies, a.op, a.time);
    } else {
      RefusedFair(c, accepted, replies);
    }
  }

  lemma DoFair(t: Trace, a: Action)
    requires Fair(t.client, t.accepted, t.replies)
    ensures Fair(Do(t, a).client, Do(t, a).accepted, Do(t, a).replies)
  {
    hide CallersOk, RepliesOk, Owed, TableInv;
    var c := t.client;
    var action := if a.Accept? then a.(caller := t.accepted) else a;
    StepKeepsTable(c, action);
    assert t.replies + [] == t.replies;
    if Enabled(c, a) {
      match a
      case Accept(_, _, _, _) => AcceptFair(c, t.accepted, t.replies, action);
      case Receive(msg, time) =>
        var (d, effect) := StepReceive(c, msg, time);
        ReceiveFair(c, d, effect, t.accepted, t.replies, msg, time);
      case FailPut(_) => FailFair(c, Step(c, a).0, t.accepted, t.replies, a);
      case FailGet(_) => FailFair(c, Step(c, a).0, t.accepted, t.replies, a);
      case Detect(_) => SameTablesFair(c, Step(c, a).0, t.accepted, t.replies);
      case Reconnect(_) => SameTablesFair(c, Step(c, a).0, t.accepted, t.replies);
    }
  }

  /**
   Conservation of callers. At any moment every call the client ever took is either waiting in
   exactly one of the two pending maps or has been told exactly once; so once failing the
   pending requests has emptied both maps, everybody has been told.
   */
  lemma {:induction false} CallersConserved(actions: seq<Action>)
    ensures var t := Run(actions); Fair(t.client, t.accepted, t.replies)
    ensures var t := Run(actions);
            t.client.mode.Recovering? && t.client.pendingPuts == map[] && t.client.pendingGets == map[] ==>
              |t.replies| == t.accepted && forall call :: 0 <= call < t.accepted ==> Told(t.replies, call)
  {
    if actions == [] {
      forall call ensures !Waits(INIT, call) {
      }
    } else {
      var init, a := actions[..|actions| - 1], actions[|actions| - 1];
      CallersConserved(init);
      DoFair(Run(init), a);
    }
    var t := Run(actions);
    if t.client.pendingPuts == map[] && t.client.pendingGets == map[] {
      forall call | 0 <= call < t.accepted ensures Told(t.replies, call) {
        assert !Waits(t.client, call);
      }
    }
  }

  // ----- Counts -----

  /** The requests that have a response time. */
  function Timed(data: seq<RequestData>): set<nat> {
    set id: nat | 0 <= id < |data| && data[id].responseTime.Some?
  }

  /** How many answers repeated an id received before. */
  function Repeats(received: seq<nat>): nat {
    if received == [] then 0
    else
      var init, last := received[..|received| - 1], received[|received| - 1];
      Repeats(init) + (if last in init then 1 else 0)
  }

  predicate Counted(t: Trace) {
    && t.client.responseCount == |t.received|
    && Timed(t.client.requestData) == (set id | id in t.received)
    && |t.received| == |Timed(t.client.requestData)| + Repeats(t.received)
  }

  lemma RecordedCounted(data: seq<RequestData>, received: seq<nat>, id: nat, time: int)
    requires id < |data| && Timed(data) == (set i | i in received)
    requires |received| == |Timed(data)| + Repeats(received)
    ensures var after := data[id := data[id].(responseTime := Some(time))];
            && Timed(after) == (set i | i in received + [id])
            && |received + [id]| == |Timed(after)| + Repeats(received + [id])
  {
    var after := data[id := data[id].(responseTime := Some(time))];
    assert Timed(after) == Timed(data) + {id};
    assert id in Timed(data) <==> id in (set i | i in received);
    assert (received + [id])[..|received|] == received;
    assert Repeats(received + [id]) == Repeats(received) + (if id in received then 1 else 0);
    if id in received {
      assert Timed(after) == Timed(data);
    }
  }

  lemma TimedMore(data: seq<RequestData>, more: RequestData)
    requires more.responseTime.None?
    ensures Timed(data + [more]) == Timed(data)
  {
  }

  predicate Records(c: Client, a: Action) {
    a.Receive? && Enabled(c, a) && !a.msg.StartSignal? && a.msg.id < |c.requestData|
  }

  /** What an action does to the request table and the count. */
  lemma StepData(c: Client, a: Action)
    ensures var d := Step(c, a).0;
            if Records(c, a) then
              && d.requestData == c.requestData[a.msg.id := c.requestData[a.msg.id].(responseTime := Some(a.time))]
              && d.responseCount == c.responseCount + 1
            else
              && (d.requestData == c.requestData ||
                  (a.Accept? && d.requestData == c.requestData + [RequestData(a.time, a.op.ApiPut?, None)]))
              && d.responseCount == c.responseCount
  {
  }

  lemma DoCounted(t: Trace, a: Action)
    requires Counted(t)
    ensures Counted(Do(t, a))
  {
    var action := if a.Accept? then a.(caller := t.accepted) else a;
    StepData(t.client, action);
    assert t.received + [] == t.received;
    if a.Accept? {
      TimedMore(t.client.requestData, RequestData(a.time, a.op.ApiPut?, None));
    } else if Records(t.client, a) {
      RecordedCounted(t.client.requestData, t.received, a.msg.id, a.time);
    }
  }

  /**
   `response_count` counts answers received; it exceeds the number of requests that have a
   response time by exactly the number of repeated answers.
   */
  lemma {:induction false} ResponsesCounted(actions: seq<Action>)
    ensures var t := Run(actions);
            && t.client.responseCount == |t.received|
            && t.client.responseCount == |Timed(t.client.requestData)| + Repeats(t.received)
            && (forall id :: id in Timed(t.client.requestData) <==> id in t.received)
    ensures Counted(Run(actions))
  {
    if actions == [] {
      assert Timed([]) == {};
    } else {
      ResponsesCounted(actions[..|actions| - 1]);
      DoCounted(Run(actions[..|actions| - 1]), actions[|actions| - 1]);
    }
    var t := Run(actions);
    forall id ensures id in Timed(t.client.requestData) <==> id in t.received {
      assert id in Timed(t.client.requestData) <==> id in (set i | i in t.received);
    }
  }

  /** The only way to the panic: an answer for an id that was never issued. */
  lemma PanicsExactlyOnUnknownId(c: Client, a: Action)
    requires TableInv(c) && !c.mode.Panicked?
    ensures Step(c, a).0.mode.Panicked? <==>
            c.mode.Running? && a.Receive? && !a.msg.StartSignal? && a.msg.id >= c.nextRequestId
  {
  }

  // ----- Finding out that the connection is lost -----

  /** After `t`, action `a` told a new caller that nothing could be sent. */
  predicate Refuses(t: Trace, a: Action) {
    Do(t, a).replies == t.replies + [(t.accepted, Error("Error: server disconnected"))]
  }

  lemma {:induction false} RefusalDisconnects(t: Trace, a: Action)
    requires Refuses(t, a)
    ensures a.Accept? && !Do(t, a).client.connected
  {
    var effect := Step(t.client, if a.Accept? then a.(caller := t.accepted) else a).1;
    assert |Do(t, a).replies| == |t.replies| + 1;
    assert Do(t, a).replies[|t.replies|] == effect.reply.value;
  }

  lemma OnlyReconnectingConnects(t: Trace, a: Action)
    requires !t.client.connected && a != Reconnect(true)
    ensures !Do(t, a).client.connected
  {
  }

  lemma {:induction false} StaysDisconnected(actions: seq<Action>, more: seq<Action>)
    requires !Run(actions).client.connected
    requires forall i :: 0 <= i < |more| ==> more[i] != Reconnect(true)
    ensures !Run(actions + more).client.connected
  {
    if more == [] {
      assert actions + more == actions;
    } else {
      var init := more[..|more| - 1];
      StaysDisconnected(actions, init);
      OnlyReconnectingConnects(Run(actions + init), more[|more| - 1]);
      assert (actions + more)[..|actions + more| - 1] == actions + init;
    }
  }

  /**
   A failed send is found out. Once a call was refused, the client knows its connection is lost
   until it has reconnected, whatever happens in between: whenever it is running, its periodic
   check will find the loss and start failing the pending requests.
   */
  lemma {:induction false} RefusalIsFoundOut(actions: seq<Action>, refused: Action, more: seq<Action>)
    requires Refuses(Run(actions), refused)
    requires forall i :: 0 <= i < |more| ==> more[i] != Reconnect(true)
    ensures var c := Run(actions + [refused] + more).client;
            && !c.connected
            && (c.mode.Running? ==>
                  && Enabled(c, Detect(false))
                  && Run(actions + [refused] + more + [Detect(false)]).client == c.(mode := Recovering))
  {
    RefusalDisconnects(Run(actions), refused);
    assert (actions + [refused])[..|actions|] == actions;
    StaysDisconnected(actions + [refused], more);
    var all := actions + [refused] + more;
    assert (all + [Detect(false)])[..|all|] == all;
  }

  /** A refusal is the only way to lose the connection short of a failed reconnection. */
  lemma OnlyRefusalsDisconnect(t: Trace, a: Action)
    requires t.client.connected && !Do(t, a).client.connected
    ensures Refuses(t, a) || (a == Reconnect(false) && t.client.mode.Recovering?)
  {
  }
}
