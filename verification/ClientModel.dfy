/**
 The client process beside a server: it accepts calls from its HTTP side, sends each to the
 server under the next request id, and matches the server's answers to the waiting callers.
 */
module ClientModel {
  import opened Wrappers
  import opened Commands

  /** What the HTTP side asks for. */
  datatype ApiCommand = ApiPut(key: string, value: string) | ApiGet(key: string)

  function ToKv(op: ApiCommand): KVCommand {
    match op
    case ApiPut(k, v) => Put(k, v)
    case ApiGet(k) => Get(k)
  }

  /** What a caller is told: the text, and whether it came from the server or stands for a failure. */
  datatype Reply = Answer(text: string) | Error(text: string)

  const NOT_SENT := Error("Error: server disconnected")
  const LOST := Error("Error: connection lost")

  /** As plain text neither failure reads like a success, nor like an absent key. */
  lemma FailuresReadAsFailures()
    ensures NOT_SENT.text == "Error: server disconnected" && LOST.text == "Error: connection lost"
    ensures NOT_SENT.text != "Ok" && LOST.text != "Ok"
    ensures NOT_SENT.text != "Key not found" && LOST.text != "Key not found"
  {
  }

  /** The text a caller gets for a value that was read. */
  function Render(value: Option<string>): string {
    if value.Some? then value.value else "Key not found"
  }

  datatype RequestData = RequestData(requestTime: int, write: bool, responseTime: Option<int>)

  /** Which caller a request id was allocated to, and for what: a history variable. */
  datatype Issue = Issue(caller: nat, op: ApiCommand)

  /** `Recovering` covers failing the pending requests and reconnecting; a panic ends the process. */
  datatype Mode = Running | Recovering | Panicked

  datatype Client = Client(
    nextRequestId: nat, requestData: seq<RequestData>, responseCount: nat,
    pendingPuts: map<nat, nat>, pendingGets: map<nat, nat>,
    connected: bool, mode: Mode, issued: seq<Issue>)

  const INIT := Client(0, [], 0, map[], map[], true, Running, [])

  datatype Action =
    | Accept(caller: nat, op: ApiCommand, accepted: bool, time: int)  // `accepted`: the connection's queue took the message
    | Receive(msg: ServerMessage, time: int)
    | Detect(channelClosed: bool)
    | FailPut(id: nat)
    | FailGet(id: nat)
    | Reconnect(success: bool)

  /** What an action tells the outside: a reply to a caller, a request put on the wire. */
  datatype Effect = Effect(reply: Option<(nat, Reply)>, request: Option<(nat, KVCommand)>)

  const NOTHING := Effect(None, None)

  function Enabled(c: Client, a: Action): bool {
    match a
    case Accept(_, _, _, _) => c.mode.Running?
    case Receive(_, _) => c.mode.Running?
    case Detect(closed) => c.mode.Running? && (closed || !c.connected)
    case FailPut(id) => c.mode.Recovering? && id in c.pendingPuts
    case FailGet(id) => c.mode.Recovering? && c.pendingPuts == map[] && id in c.pendingGets
    case Reconnect(_) => c.mode.Recovering? && c.pendingPuts == map[] && c.pendingGets == map[]
  }

  function Step(c: Client, a: Action): (Client, Effect) {
    if !Enabled(c, a) then (c, NOTHING)
    else
      match a
      case Accept(caller, op, accepted, time) =>
        if c.connected && accepted then StepSend(c, caller, op, time)
        else (c.(connected := false), Effect(Some((caller, NOT_SENT)), None))
      case Receive(msg, time) => StepReceive(c, msg, time)
      case Detect(_) => (c.(mode := Recovering), NOTHING)
      case FailPut(id) => (c.(pendingPuts := c.pendingPuts - {id}), Effect(Some((c.pendingPuts[id], LOST)), None))
      case FailGet(id) => (c.(pendingGets := c.pendingGets - {id}), Effect(Some((c.pendingGets[id], LOST)), None))
      case Reconnect(success) => (c.(connected := success, mode := if success then Running else Recovering), NOTHING)
  }

  function StepSend(c: Client, caller: nat, op: ApiCommand, time: int): (Client, Effect) {
    var id := c.nextRequestId;
    (c.(nextRequestId := id + 1,
        requestData := c.requestData + [RequestData(time, op.ApiPut?, None)],
        issued := c.issued + [Issue(caller, op)],
        pendingPuts := if op.ApiPut? then c.pendingPuts[id := caller] else c.pendingPuts,
        pendingGets := if op.ApiGet? then c.pendingGets[id := caller] else c.pendingGets),
     Effect(None, Some((id, ToKv(op)))))
  }

  function StepReceive(c: Client, msg: ServerMessage, time: int): (Client, Effect) {
    match msg
    case StartSignal(_) => (c, NOTHING)
    case Write(id) =>
      var told := if id in c.pendingPuts then Some((c.pendingPuts[id], Answer("Ok"))) else None;
      (Recorded(c.(pendingPuts := c.pendingPuts - {id}), id, time), Effect(told, None))
    case Read(id, value) =>
      var told := if id in c.pendingGets then Some((c.pendingGets[id], Answer(Render(value)))) else None;
      (Recorded(c.(pendingGets := c.pendingGets - {id}), id, time), Effect(told, None))
  }

  /** `new_response` indexes the request table without a check: an id out of range is a panic. */
  function Recorded(c: Client, id: nat, time: int): Client {
    if id < |c.requestData| then
      c.(requestData := c.requestData[id := c.requestData[id].(responseTime := Some(time))],
         responseCount := c.responseCount + 1)
    else c.(mode := Panicked)
  }

  // ----- The table invariant -----

  predicate PutsOk(c: Client) {
    forall id :: id in c.pendingPuts ==>
                   && id < |c.issued|
                   && c.issued[id].op.ApiPut?
                   && c.pendingPuts[id] == c.issued[id].caller
  }

  predicate GetsOk(c: Client) {
    forall id :: id in c.pendingGets ==>
                   && id < |c.issued|
                   && c.issued[id].op.ApiGet?
                   && c.pendingGets[id] == c.issued[id].caller
  }

  /**
   Ids are allocated without gaps, the recorded `write` flag says what each was for, and each
   pending map holds only ids of its own kind, under the caller they were allocated to.
   */
  predicate TableInv(c: Client) {
    && |c.requestData| == c.nextRequestId == |c.issued|
    && (forall id :: 0 <= id < |c.issued| ==> c.requestData[id].write == c.issued[id].op.ApiPut?)
    && PutsOk(c)
    && GetsOk(c)
  }

  lemma InitTable()
    ensures TableInv(INIT)
  {
  }

  lemma ReceiveKeepsTable(c: Client, msg: ServerMessage, time: int)
    requires TableInv(c)
    ensures TableInv(StepReceive(c, msg, time).0)
  {
  }

  lemma StepKeepsTable(c: Client, a: Action)
    requires TableInv(c)
    ensures TableInv(Step(c, a).0)
  {
    if a.Receive? && Enabled(c, a) {
      ReceiveKeepsTable(c, a.msg, a.time);
    }
  }

  /** The two pending maps never share an id. */
  lemma PendingDisjoint(c: Client)
    requires TableInv(c)
    ensures c.pendingPuts.Keys !! c.pendingGets.Keys
    ensures forall id :: id in c.pendingPuts ==> id < c.nextRequestId && c.requestData[id].write
    ensures forall id :: id in c.pendingGets ==> id < c.nextRequestId && !c.requestData[id].write
  {
  }
}
