/**
 The whole system: servers over one decided log, and beside each server its client. Requests
 wait on the wire until they are delivered, at most once; proposals wait to be decided, at
 most once; anything may wait for ever, which is how it is lost. An answer a server has sent
 may reach its client late, more than once, or never.
 */
module Cluster {
  import opened Wrappers
  import opened Commands
  import opened ClientModel
  import opened History
  import Replica

  datatype Request = Request(client: nat, id: CommandId, kv: KVCommand)

  /** How long the log was when an event happened and, for an answer, its log position. */
  datatype Mark = Mark(stamp: nat, place: nat)

  /** `history` and `marks` are history variables. */
  datatype State = State(
    log: seq<Command>, nodes: seq<Replica.Node>, clients: seq<Client>,
    requests: set<Request>, proposals: set<Command>,
    history: seq<Event>, marks: seq<Mark>)

  datatype Move =
    | Call(client: nat, op: ApiCommand, accepted: bool, time: int)
    | Arrive(request: Request, connection: ClientId)          // the server appends it: append_to_log
    | Decide(cmd: Command)
    | ServerStep(server: nat, step: Replica.Step)
    | Answered(client: nat, index: nat, time: int)            // an answer reaches the client
    | ClientStep(client: nat, action: ClientModel.Action)     // detecting a lost connection, failing calls, reconnecting

  function Init(n: nat): State {
    State([], seq(n, _ => Replica.INIT), seq(n, _ => ClientModel.INIT), {}, {}, [], [])
  }

  /** A client acts: its reply, if any, becomes an event, its request goes on the wire. */
  function ClientActs(s: State, c: nat, action: ClientModel.Action, place: nat): State
    requires c < |s.clients|
  {
    var (client, effect) := ClientModel.Step(s.clients[c], action);
    s.(clients := s.clients[c := client],
       history := s.history + (if effect.reply.Some? then [Respond(effect.reply.value.0, effect.reply.value.1)] else []),
       marks := s.marks + (if effect.reply.Some? then [Mark(|s.log|, place)] else []),
       requests := s.requests + (if effect.request.Some? then {Request(c, effect.request.value.0, effect.request.value.1)} else {}))
  }

  function Invoked(s: State, c: nat, op: ApiCommand): State {
    s.(history := s.history + [Invoke(c, op)], marks := s.marks + [Mark(|s.log|, 0)])
  }

  predicate Possible(s: State, m: Move) {
    match m
    case Call(c, op, accepted, time) => c < |s.clients| && s.clients[c].mode.Running?
    case Arrive(r, _) => r in s.requests && r.client < |s.nodes| && s.nodes[r.client].up
    case Decide(cmd) => cmd in s.proposals
    case ServerStep(i, _) => i < |s.nodes|
    case Answered(c, j, _) => c < |s.clients| && c < |s.nodes| && j < |s.nodes[c].answers|
    case ClientStep(c, a) => c < |s.clients| && !a.Accept? && !a.Receive?
  }

  /** One move; a move that is not possible changes nothing. */
  function Do(interval: nat, s: State, m: Move): State {
    if !Possible(s, m) then s
    else
      match m
      case Call(c, op, accepted, time) => ClientActs(Invoked(s, c, op), c, Accept(|s.history|, op, accepted, time), 0)
      case Arrive(r, connection) =>
        s.(requests := s.requests - {r}, proposals := s.proposals + {Command(connection, r.client, r.id, r.kv)})
      case Decide(cmd) => s.(log := s.log + [cmd], proposals := s.proposals - {cmd})
      case ServerStep(i, step) => s.(nodes := s.nodes[i := Replica.Next(interval, i, s.log, s.nodes[i], step)])
      case Answered(c, j, time) =>
        var sent := s.nodes[c].answers[j];
        ClientActs(s, c, Receive(sent.msg, time), sent.pos)
      case ClientStep(c, a) => ClientActs(s, c, a, 0)
  }

  function Run(n: nat, interval: nat, moves: seq<Move>): State {
    if moves == [] then Init(n) else Do(interval, Run(n, interval, moves[..|moves| - 1]), moves[|moves| - 1])
  }
}
