/** What every reachable state of the whole system satisfies, proved move by move. */
module ClusterInvariant {
  import opened Wrappers
  import opened Commands
  import opened ClientModel
  import opened History
  import opened Cluster
  import Replica

  /** For each client, the requests it has ever issued: request id `i` is entry `i`. */
  type Book = seq<seq<Issue>>

  function BookOf(clients: seq<Client>): (book: Book)
    ensures |book| == |clients| && forall c :: 0 <= c < |clients| ==> book[c] == clients[c].issued
  {
    seq(|clients|, c requires 0 <= c < |clients| => clients[c].issued)
  }

  predicate InBook(book: Book, c: nat, id: nat, kv: KVCommand) {
    c < |book| && id < |book[c]| && kv == ToKv(book[c][id].op)
  }

  /** The call a logged command carries out. */
  function CallOf(book: Book, cmd: Command): nat {
    if cmd.coordinatorId < |book| && cmd.id < |book[cmd.coordinatorId]| then book[cmd.coordinatorId][cmd.id].caller else 0
  }

  function TextOf(msg: ServerMessage): string {
    match msg
    case Write(_) => "Ok"
    case Read(_, value) => Render(value)
    case StartSignal(_) => ""
  }

  // ----- Where a request can be: on the wire, proposed, or in the log, and only in one place -----

  function Key(cmd: Command): (nat, nat) {
    (cmd.coordinatorId, cmd.id)
  }

  function WireKey(r: Request): (nat, nat) {
    (r.client, r.id)
  }

  predicate RequestsOk(book: Book, requests: set<Request>) {
    forall r :: r in requests ==> InBook(book, r.client, r.id, r.kv)
  }

  predicate ProposalsOk(book: Book, proposals: set<Command>) {
    forall p :: p in proposals ==> InBook(book, p.coordinatorId, p.id, p.kv)
  }

  predicate LogOk(book: Book, log: seq<Command>) {
    forall i :: 0 <= i < |log| ==> InBook(book, log[i].coordinatorId, log[i].id, log[i].kv)
  }

  predicate OncePerId(requests: set<Request>, proposals: set<Command>, log: seq<Command>) {
    && (forall r, p :: r in requests && p in proposals ==> WireKey(r) != Key(p))
    && (forall r, i :: r in requests && 0 <= i < |log| ==> WireKey(r) != Key(log[i]))
    && (forall p, q :: p in proposals && q in proposals && Key(p) == Key(q) ==> p == q)
    && (forall p, i :: p in proposals && 0 <= i < |log| ==> Key(p) != Key(log[i]))
    && (forall i, j :: 0 <= i < j < |log| ==> Key(log[i]) != Key(log[j]))
  }

  predicate Flow(book: Book, requests: set<Request>, proposals: set<Command>, log: seq<Command>) {
    RequestsOk(book, requests) && ProposalsOk(book, proposals) && LogOk(book, log) && OncePerId(requests, proposals, log)
  }

  // ----- What the history records -----

  predicate IssuedOk(book: Book, h: seq<Event>) {
    && (forall c, id :: 0 <= c < |book| && 0 <= id < |book[c]| ==>
                          book[c][id].caller < |h| && h[book[c][id].caller] == Invoke(c, book[c][id].op))
    && (forall c, i, j :: 0 <= c < |book| && 0 <= i < j < |book[c]| ==> book[c][i].caller < book[c][j].caller)
  }

  predicate StampsOk(marks: seq<Mark>, length: nat) {
    && (forall e :: 0 <= e < |marks| ==> marks[e].stamp <= length)
    && (forall e, f :: 0 <= e < f < |marks| ==> marks[e].stamp <= marks[f].stamp)
  }

  /** A call was made before its entry was decided. */
  predicate EntriesOk(book: Book, log: seq<Command>, marks: seq<Mark>) {
    forall p :: 0 <= p < |log| ==> CallOf(book, log[p]) < |marks| && marks[CallOf(book, log[p])].stamp <= p
  }

  /** An answer was given after its entry was decided, and is the answer of that entry. */
  predicate Placed(book: Book, log: seq<Command>, event: Event, mark: Mark) {
    event.Respond? && event.reply.Answer? ==>
      && 1 <= mark.place <= mark.stamp <= |log|
      && CallOf(book, log[mark.place - 1]) == event.call
      && event.reply.text == TextOf(AnswerAt(log, mark.place))
  }

  predicate AnswersOk(book: Book, log: seq<Command>, h: seq<Event>, marks: seq<Mark>)
    requires |h| == |marks|
  {
    forall e :: 0 <= e < |h| ==> Placed(book, log, h[e], marks[e])
  }

  predicate NotInBook(book: Book, call: nat) {
    forall c, id :: 0 <= c < |book| && 0 <= id < |book[c]| ==> book[c][id].caller != call
  }

  /** A call refused because nothing could be sent was never given a request id. */
  predicate RefusedOk(book: Book, h: seq<Event>) {
    forall e :: 0 <= e < |h| && h[e].Respond? && h[e].reply == NOT_SENT ==> NotInBook(book, h[e].call)
  }

  predicate Past(book: Book, log: seq<Command>, h: seq<Event>, marks: seq<Mark>) {
    && |h| == |marks|
    && IssuedOk(book, h)
    && StampsOk(marks, |log|)
    && EntriesOk(book, log, marks)
    && AnswersOk(book, log, h, marks)
    && WellFormed(h)
    && RefusedOk(book, h)
  }

  predicate Unanswered(h: seq<Event>, call: nat) {
    forall e :: 0 <= e < |h| && h[e].Respond? ==> h[e].call != call
  }

  predicate Pending(c: Client, id: nat) {
    id in c.pendingPuts || id in c.pendingGets
  }

  /** The pending maps hold exactly the requests whose calls have had no reply. */
  predicate WaitingOk(c: Client, h: seq<Event>) {
    forall id {:trigger Pending(c, id)} :: 0 <= id < |c.issued| ==> (Pending(c, id) <==> Unanswered(h, c.issued[id].caller))
  }

  predicate ClientOk(c: Client, h: seq<Event>) {
    TableInv(c) && WaitingOk(c, h) && !c.mode.Panicked?
  }

  predicate NodesOk(log: seq<Command>, nodes: seq<Replica.Node>) {
    forall i :: 0 <= i < |nodes| ==> Replica.NodeInv(i, log, nodes[i])
  }

  predicate ClientsOk(clients: seq<Client>, h: seq<Event>) {
    forall c :: 0 <= c < |clients| ==> ClientOk(clients[c], h)
  }

  predicate Inv(s: State) {
    var book: Book := BookOf(s.clients);
    && |s.nodes| == |s.clients|
    && NodesOk(s.log, s.nodes)
    && ClientsOk(s.clients, s.history)
    && Flow(book, s.requests, s.proposals, s.log)
    && Past(book, s.log, s.history, s.marks)
  }

  // ----- Requests moving -----

  lemma FlowArrive(book: Book, requests: set<Request>, proposals: set<Command>, log: seq<Command>, r: Request, connection: ClientId)
    requires Flow(book, requests, proposals, log) && r in requests
    ensures Flow(book, requests - {r}, proposals + {Command(connection, r.client, r.id, r.kv)}, log)
  {
    forall r' | r' in requests - {r} ensures WireKey(r') != WireKey(r) {
      assert InBook(book, r'.client, r'.id, r'.kv) && InBook(book, r.client, r.id, r.kv);
    }
  }

  lemma FlowDecide(book: Book, requests: set<Request>, proposals: set<Command>, log: seq<Command>, cmd: Command)
    requires Flow(book, requests, proposals, log) && cmd in proposals
    ensures Flow(book, requests, proposals - {cmd}, log + [cmd])
  {
  }

  /** Client `c` issues its next request id. */
  function Noted(book: Book, c: nat, issue: Issue): Book
    requires c < |book|
  {
    book[c := book[c] + [issue]]
  }

  lemma InBookNoted(book: Book, c: nat, issue: Issue, c': nat, id: nat, kv: KVCommand)
    requires c < |book| && InBook(book, c', id, kv)
    ensures InBook(Noted(book, c, issue), c', id, kv)
    ensures Noted(book, c, issue)[c'][id] == book[c'][id]
  {
  }

  lemma FlowIssue(book: Book, requests: set<Request>, proposals: set<Command>, log: seq<Command>, c: nat, issue: Issue)
    requires Flow(book, requests, proposals, log) && c < |book|
    ensures Flow(Noted(book, c, issue), requests + {Request(c, |book[c]|, ToKv(issue.op))}, proposals, log)
  {
    var fresh' := Request(c, |book[c]|, ToKv(issue.op));
    forall r | r in requests ensures InBook(Noted(book, c, issue), r.client, r.id, r.kv) {
      InBookNoted(book, c, issue, r.client, r.id, r.kv);
    }
    forall p | p in proposals
      ensures InBook(Noted(book, c, issue), p.coordinatorId, p.id, p.kv) && WireKey(fresh') != Key(p) {
      InBookNoted(book, c, issue, p.coordinatorId, p.id, p.kv);
    }
    forall i | 0 <= i < |log|
      ensures InBook(Noted(book, c, issue), log[i].coordinatorId, log[i].id, log[i].kv) && WireKey(fresh') != Key(log[i]) {
      InBookNoted(book, c, issue, log[i].coordinatorId, log[i].id, log[i].kv);
    }
  }

  // ----- The history growing -----

  lemma PastInvoke(book: Book, log: seq<Command>, h: seq<Event>, marks: seq<Mark>, c: nat, op: ApiCommand)
    requires Past(book, log, h, marks)
    ensures Past(book, log, h + [Invoke(c, op)], marks + [Mark(|log|, 0)])
  {
  }

  lemma WellFormedRespond(h: seq<Event>, call: nat, reply: Reply)
    requires WellFormed(h) && IsCall(h, call) && Unanswered(h, call)
    ensures WellFormed(h + [Respond(call, reply)])
  {
  }

  lemma PastRespond(book: Book, log: seq<Command>, h: seq<Event>, marks: seq<Mark>, call: nat, reply: Reply, place: nat)
    requires Past(book, log, h, marks)
    requires IsCall(h, call) && Unanswered(h, call)
    requires Placed(book, log, Respond(call, reply), Mark(|log|, place))
    requires reply == NOT_SENT ==> NotInBook(book, call)
    ensures Past(book, log, h + [Respond(call, reply)], marks + [Mark(|log|, place)])
  {
    WellFormedRespond(h, call, reply);
    hide WellFormed;
  }

  lemma CallOfNoted(book: Book, c: nat, issue: Issue, cmd: Command)
    requires c < |book| && InBook(book, cmd.coordinatorId, cmd.id, cmd.kv)
    ensures CallOf(Noted(book, c, issue), cmd) == CallOf(book, cmd)
  {
    InBookNoted(book, c, issue, cmd.coordinatorId, cmd.id, cmd.kv);
  }

  /** The latest event invoked `op` at client `c`; now a request id is allocated to it. */
  lemma PastIssue(book: Book, log: seq<Command>, h: seq<Event>, marks: seq<Mark>, c: nat, op: ApiCommand)
    requires Past(book, log, h, marks) && LogOk(book, log) && c < |book|
    requires h != [] && h[|h| - 1] == Invoke(c, op)
    requires NotInBook(book, |h| - 1)
    ensures Past(Noted(book, c, Issue(|h| - 1, op)), log, h, marks)
  {
    var issue := Issue(|h| - 1, op);
    var noted := Noted(book, c, issue);
    forall i | 0 <= i < |log| ensures CallOf(noted, log[i]) == CallOf(book, log[i]) {
      CallOfNoted(book, c, issue, log[i]);
    }
    IssuedNoted(book, h, c, op);
    forall e | 0 <= e < |h| && h[e].Respond? && h[e].reply == NOT_SENT ensures NotInBook(noted, h[e].call) {
      assert h[e].call < e;
    }
    forall e | 0 <= e < |h| ensures Placed(noted, log, h[e], marks[e]) {
      assert Placed(book, log, h[e], marks[e]);
    }
  }

  lemma IssuedNoted(book: Book, h: seq<Event>, c: nat, op: ApiCommand)
    requires IssuedOk(book, h) && c < |book|
    requires h != [] && h[|h| - 1] == Invoke(c, op) && NotInBook(book, |h| - 1)
    ensures IssuedOk(Noted(book, c, Issue(|h| - 1, op)), h)
  {
  }

  lemma PastDecide(book: Book, log: seq<Command>, h: seq<Event>, marks: seq<Mark>, cmd: Command)
    requires Past(book, log, h, marks)
    requires InBook(book, cmd.coordinatorId, cmd.id, cmd.kv)
    ensures Past(book, log + [cmd], h, marks)
  {
    forall e | 0 <= e < |h| ensures Placed(book, log + [cmd], h[e], marks[e]) {
      assert Placed(book, log, h[e], marks[e]);
      if h[e].Respond? && h[e].reply.Answer? {
        AnswerAtPrefix(log, log + [cmd], marks[e].place);
      }
    }
  }

  // ----- Moves of servers and of the log -----

  lemma ArriveKeepsInv(interval: nat, s: State, r: Request, connection: ClientId)
    requires Inv(s) && Possible(s, Arrive(r, connection))
    ensures Inv(Do(interval, s, Arrive(r, connection)))
  {
    FlowArrive(BookOf(s.clients), s.requests, s.proposals, s.log, r, connection);
  }

  lemma DecideKeepsInv(interval: nat, s: State, cmd: Command)
    requires Inv(s) && cmd in s.proposals
    ensures Inv(Do(interval, s, Decide(cmd)))
  {
    var book: Book := BookOf(s.clients);
    FlowDecide(book, s.requests, s.proposals, s.log, cmd);
    PastDecide(book, s.log, s.history, s.marks, cmd);
    forall i | 0 <= i < |s.nodes| ensures Replica.NodeInv(i, s.log + [cmd], s.nodes[i]) {
      Replica.GrowKeepsInv(i, s.log, s.log + [cmd], s.nodes[i]);
    }
  }

  lemma ServerStepKeepsInv(interval: nat, s: State, i: nat, step: Replica.Step)
    requires Inv(s) && i < |s.nodes|
    ensures Inv(Do(interval, s, ServerStep(i, step)))
  {
    Replica.NextKeepsInv(interval, i, s.log, s.nodes[i], step);
    var after := Do(interval, s, ServerStep(i, step));
    forall k | 0 <= k < |after.nodes| ensures Replica.NodeInv(k, after.log, after.nodes[k]) {
    }
  }

  // ----- Moves of clients -----

  lemma CallerInjective(book: Book, h: seq<Event>, c: nat, i: nat, d: nat, j: nat)
    requires IssuedOk(book, h)
    requires c < |book| && i < |book[c]| && d < |book| && j < |book[d]|
    requires book[c][i].caller == book[d][j].caller
    ensures c == d && i == j
  {
    assert h[book[c][i].caller] == Invoke(c, book[c][i].op);
    assert h[book[d][j].caller] == Invoke(d, book[d][j].op);
  }

  lemma OtherClientsCallers(book: Book, h: seq<Event>, c: nat, id: nat, d: nat)
    requires IssuedOk(book, h) && c < |book| && id < |book[c]| && d < |book| && d != c
    ensures forall i :: 0 <= i < |book[d]| ==> book[d][i].caller != book[c][id].caller
  {
    assert h[book[c][id].caller] == Invoke(c, book[c][id].op);
    forall i | 0 <= i < |book[d]| ensures book[d][i].caller != book[c][id].caller {
      assert h[book[d][i].caller] == Invoke(d, book[d][i].op);
    }
  }

  predicate NotIssued(c: Client, call: nat) {
    forall id :: 0 <= id < |c.issued| ==> c.issued[id].caller != call
  }

  lemma UnansweredMore(h: seq<Event>, call: nat, reply: Reply, other: nat)
    ensures Unanswered(h + [Respond(call, reply)], other) <==> Unanswered(h, other) && other != call
  {
    var all := h + [Respond(call, reply)];
    assert all[|h|] == Respond(call, reply);
    if Unanswered(all, other) {
      forall e | 0 <= e < |h| && h[e].Respond? ensures h[e].call != other {
        assert all[e] == h[e];
      }
    }
  }

  lemma RespondWaits(c: Client, h: seq<Event>, call: nat, reply: Reply)
    requires WaitingOk(c, h) && NotIssued(c, call)
    ensures WaitingOk(c, h + [Respond(call, reply)])
  {
    forall id | 0 <= id < |c.issued|
      ensures Pending(c, id) <==> Unanswered(h + [Respond(call, reply)], c.issued[id].caller)
    {
      UnansweredMore(h, call, reply, c.issued[id].caller);
    }
  }

  /** The same allocations and pending requests, apart from those ids no longer pending. */
  predicate Settled(after: Client, before: Client, done: set<nat>) {
    && after.issued == before.issued
    && TableInv(after)
    && !after.mode.Panicked?
    && forall id :: 0 <= id < |before.issued| ==> (Pending(after, id) <==> Pending(before, id) && id !in done)
  }

  lemma SettledWaits(after: Client, before: Client, h: seq<Event>, id: nat, reply: Reply)
    requires Settled(after, before, {id}) && WaitingOk(before, h) && id < |before.issued|
    requires forall i, j :: 0 <= i < j < |before.issued| ==> before.issued[i].caller < before.issued[j].caller
    ensures WaitingOk(after, h + [Respond(before.issued[id].caller, reply)])
  {
    var call := before.issued[id].caller;
    forall i | 0 <= i < |after.issued|
      ensures Pending(after, i) <==> Unanswered(h + [Respond(call, reply)], after.issued[i].caller)
    {
      UnansweredMore(h, call, reply, before.issued[i].caller);
    }
  }

  lemma BookUnchanged(clients: seq<Client>, c: nat, client: Client)
    requires c < |clients| && client.issued == clients[c].issued
    ensures BookOf(clients[c := client]) == BookOf(clients)
  {
  }

  lemma QuietKeepsInv(s: State, c: nat, client: Client)
    requires Inv(s) && c < |s.clients| && Settled(client, s.clients[c], {})
    ensures Inv(s.(clients := s.clients[c := client]))
  {
    BookUnchanged(s.clients, c, client);
    assert ClientOk(s.clients[c], s.history);
    forall id | 0 <= id < |client.issued| ensures Pending(client, id) <==> Unanswered(s.history, client.issued[id].caller) {
      assert Pending(client, id) <==> Pending(s.clients[c], id);
    }
  }

  /** Client `c` gives `reply` to `call`. */
  function Replied(s: State, c: nat, client: Client, call: nat, reply: Reply, place: nat): State
    requires c < |s.clients|
  {
    s.(clients := s.clients[c := client],
       history := s.history + [Respond(call, reply)], marks := s.marks + [Mark(|s.log|, place)])
  }

  lemma ReplyKeepsInv(s: State, c: nat, client: Client, call: nat, reply: Reply, place: nat)
    requires Inv(s) && c < |s.clients|
    requires client.issued == s.clients[c].issued && TableInv(client) && !client.mode.Panicked?
    requires IsCall(s.history, call) && Unanswered(s.history, call)
    requires Placed(BookOf(s.clients), s.log, Respond(call, reply), Mark(|s.log|, place))
    requires reply == NOT_SENT ==> NotInBook(BookOf(s.clients), call)
    requires WaitingOk(client, s.history + [Respond(call, reply)])
    requires forall d :: 0 <= d < |s.clients| && d != c ==> NotIssued(s.clients[d], call)
    ensures Inv(Replied(s, c, client, call, reply, place))
  {
    BookUnchanged(s.clients, c, client);
    PastRespond(BookOf(s.clients), s.log, s.history, s.marks, call, reply, place);
    var after := Replied(s, c, client, call, reply, place);
    forall d | 0 <= d < |after.clients| ensures ClientOk(after.clients[d], after.history) {
      if d != c {
        assert ClientOk(s.clients[d], s.history);
        RespondWaits(s.clients[d], s.history, call, reply);
      }
    }
  }

  /** Replying to a request that was pending. */
  lemma PendingReplyKeepsInv(s: State, c: nat, client: Client, id: nat, reply: Reply, place: nat)
    requires Inv(s) && c < |s.clients| && id < |s.clients[c].issued|
    requires Pending(s.clients[c], id) && Settled(client, s.clients[c], {id})
    requires reply != NOT_SENT
    requires Placed(BookOf(s.clients), s.log, Respond(s.clients[c].issued[id].caller, reply), Mark(|s.log|, place))
    ensures Inv(Replied(s, c, client, s.clients[c].issued[id].caller, reply, place))
  {
    var book: Book := BookOf(s.clients);
    var call := book[c][id].caller;
    assert ClientOk(s.clients[c], s.history);
    assert s.history[call] == Invoke(c, book[c][id].op);
    SettledWaits(client, s.clients[c], s.history, id, reply);
    forall d | 0 <= d < |s.clients| && d != c ensures NotIssued(s.clients[d], call) {
      OtherClientsCallers(book, s.history, c, id, d);
    }
    ReplyKeepsInv(s, c, client, call, reply, place);
  }

  /** What an action that sends no request does to the whole state. */
  lemma ActsQuietly(s: State, c: nat, a: ClientModel.Action, place: nat)
    requires c < |s.clients| && ClientModel.Step(s.clients[c], a).1.request.None?
    ensures var (client, effect) := ClientModel.Step(s.clients[c], a);
            ClientActs(s, c, a, place) ==
            if effect.reply.Some? then Replied(s, c, client, effect.reply.value.0, effect.reply.value.1, place)
            else s.(clients := s.clients[c := client])
  {
    assert s.requests + {} == s.requests && s.history + [] == s.history && s.marks + [] == s.marks;
  }

  lemma UnansweredInvoke(h: seq<Event>, c: nat, op: ApiCommand, call: nat)
    ensures Unanswered(h + [Invoke(c, op)], call) <==> Unanswered(h, call)
  {
    var all := h + [Invoke(c, op)];
    if Unanswered(all, call) {
      forall e | 0 <= e < |h| && h[e].Respond? ensures h[e].call != call {
        assert all[e] == h[e];
      }
    }
  }

  lemma InvokedKeepsInv(s: State, c: nat, op: ApiCommand)
    requires Inv(s) && c < |s.clients|
    ensures Inv(Invoked(s, c, op))
  {
    PastInvoke(BookOf(s.clients), s.log, s.history, s.marks, c, op);
    var after := Invoked(s, c, op);
    forall d | 0 <= d < |after.clients| ensures ClientOk(after.clients[d], after.history) {
      var client := s.clients[d];
      assert ClientOk(client, s.history);
      forall id | 0 <= id < |client.issued| ensures Pending(client, id) <==> Unanswered(after.history, client.issued[id].caller) {
        UnansweredInvoke(s.history, c, op, client.issued[id].caller);
      }
    }
  }

  /** A call just made is not in any book, and has no reply. */
  lemma JustInvoked(s: State, c: nat, op: ApiCommand)
    requires Inv(s) && c < |s.clients|
    ensures Inv(Invoked(s, c, op))
    ensures NotInBook(BookOf(s.clients), |s.history|)
    ensures Unanswered(Invoked(s, c, op).history, |s.history|)
    ensures forall d :: 0 <= d < |s.clients| ==> NotIssued(s.clients[d], |s.history|)
  {
    InvokedKeepsInv(s, c, op);
    forall d | 0 <= d < |s.clients| ensures NotIssued(s.clients[d], |s.history|) {
      assert BookOf(s.clients)[d] == s.clients[d].issued;
    }
  }

  lemma RefusedKeepsInv(s: State, c: nat, op: ApiCommand, time: int, accepted: bool)
    requires Inv(s) && c < |s.clients| && s.clients[c].mode.Running?
    requires !(s.clients[c].connected && accepted)
    ensures Inv(ClientActs(Invoked(s, c, op), c, Accept(|s.history|, op, accepted, time), 0))
  {
    JustInvoked(s, c, op);
    var s1 := Invoked(s, c, op);
    var client := s.clients[c].(connected := false);
    assert ClientOk(s1.clients[c], s1.history);
    RespondWaits(s1.clients[c], s1.history, |s.history|, NOT_SENT);
    assert WaitingOk(client, s1.history + [Respond(|s.history|, NOT_SENT)]) by {
      assert forall id :: 0 <= id < |client.issued| ==> (Pending(client, id) <==> Pending(s1.clients[c], id));
    }
    ReplyKeepsInv(s1, c, client, |s.history|, NOT_SENT, 0);
    ActsQuietly(s1, c, Accept(|s.history|, op, accepted, time), 0);
  }

  lemma SentWaits(c: Client, h: seq<Event>, call: nat, op: ApiCommand, time: int)
    requires TableInv(c) && WaitingOk(c, h) && Unanswered(h, call)
    ensures WaitingOk(StepSend(c, call, op, time).0, h)
  {
    var after := StepSend(c, call, op, time).0;
    forall id | 0 <= id < |after.issued| ensures Pending(after, id) <==> Unanswered(h, after.issued[id].caller) {
      if id < |c.issued| {
        assert Pending(c, id) <==> Unanswered(h, c.issued[id].caller);
      }
    }
  }

  lemma SentActs(s: State, c: nat, call: nat, op: ApiCommand, time: int)
    requires c < |s.clients| && s.clients[c].mode.Running? && s.clients[c].connected && TableInv(s.clients[c])
    ensures var book: Book := BookOf(s.clients);
            var after := ClientActs(s, c, Accept(call, op, true, time), 0);
            && after == s.(clients := s.clients[c := StepSend(s.clients[c], call, op, time).0],
                           requests := s.requests + {Request(c, |book[c]|, ToKv(op))})
            && BookOf(after.clients) == Noted(book, c, Issue(call, op))
            && TableInv(after.clients[c])
  {
    StepKeepsTable(s.clients[c], Accept(call, op, true, time));
    assert s.history + [] == s.history && s.marks + [] == s.marks;
  }

  /** The latest event invoked `op` at client `c`, which now sends it. */
  lemma IssueKeepsInv(s: State, c: nat, op: ApiCommand, time: int)
    requires Inv(s) && c < |s.clients| && s.clients[c].mode.Running? && s.clients[c].connected
    requires TableInv(s.clients[c]) && WaitingOk(s.clients[c], s.history)
    requires s.history != [] && s.history[|s.history| - 1] == Invoke(c, op)
    requires NotInBook(BookOf(s.clients), |s.history| - 1) && Unanswered(s.history, |s.history| - 1)
    ensures Inv(ClientActs(s, c, Accept(|s.history| - 1, op, true, time), 0))
  {
    var call := |s.history| - 1;
    FlowIssue(BookOf(s.clients), s.requests, s.proposals, s.log, c, Issue(call, op));
    PastIssue(BookOf(s.clients), s.log, s.history, s.marks, c, op);
    SentWaits(s.clients[c], s.history, call, op, time);
    SentActs(s, c, call, op, time);
  }

  lemma SentKeepsInv(s: State, c: nat, op: ApiCommand, time: int)
    requires Inv(s) && c < |s.clients| && s.clients[c].mode.Running? && s.clients[c].connected
    ensures Inv(ClientActs(Invoked(s, c, op), c, Accept(|s.history|, op, true, time), 0))
  {
    JustInvoked(s, c, op);
    var invoked := Invoked(s, c, op);
    assert ClientOk(invoked.clients[c], invoked.history);
    IssueKeepsInv(invoked, c, op, time);
  }

  /** Failing a pending request settles it and tells its caller. */
  lemma FailEffect(before: Client, a: ClientModel.Action)
    requires TableInv(before) && Enabled(before, a) && (a.FailPut? || a.FailGet?)
    ensures var (client, effect) := ClientModel.Step(before, a);
            && a.id < |before.issued| && Pending(before, a.id)
            && Settled(client, before, {a.id})
            && effect == Effect(Some((before.issued[a.id].caller, LOST)), None)
  {
    StepKeepsTable(before, a);
    PendingDisjoint(before);
  }

  lemma ClientStepKeepsInv(s: State, c: nat, a: ClientModel.Action)
    requires Inv(s) && c < |s.clients| && !a.Accept? && !a.Receive?
    ensures Inv(ClientActs(s, c, a, 0))
  {
    var before := s.clients[c];
    assert ClientOk(before, s.history);
    StepKeepsTable(before, a);
    var client := ClientModel.Step(before, a).0;
    ActsQuietly(s, c, a, 0);
    if Enabled(before, a) && (a.FailPut? || a.FailGet?) {
      FailEffect(before, a);
      PendingReplyKeepsInv(s, c, client, a.id, LOST, 0);
    } else {
      QuietKeepsInv(s, c, client);
    }
  }

  /** What a server may have sent its client: the answer of a logged request of that client. */
  lemma SentAnswer(log: seq<Command>, nodes: seq<Replica.Node>, book: Book, c: nat, j: nat)
    requires NodesOk(log, nodes) && LogOk(book, log)
    requires c < |nodes| && j < |nodes[c].answers|
    ensures var sent := nodes[c].answers[j];
            && 1 <= sent.pos <= |log|
            && sent.msg == AnswerAt(log, sent.pos)
            && !sent.msg.StartSignal?
            && c < |book| && sent.msg.id == log[sent.pos - 1].id < |book[c]|
            && CallOf(book, log[sent.pos - 1]) == book[c][sent.msg.id].caller
            && (sent.msg.Write? <==> book[c][sent.msg.id].op.ApiPut?)
            && Placed(book, log, Respond(book[c][sent.msg.id].caller, Answer(TextOf(sent.msg))), Mark(|log|, sent.pos))
  {
    assert Replica.NodeInv(c, log, nodes[c]);
    var sent := nodes[c].answers[j];
    assert sent == Replica.TheAnswer(log, sent.pos);
    var cmd := log[sent.pos - 1];
    assert InBook(book, cmd.coordinatorId, cmd.id, cmd.kv);
  }

  /** Receiving an answer settles its request if that is pending and of its kind, and tells the caller. */
  lemma ReceiveEffect(before: Client, msg: ServerMessage, time: int)
    requires TableInv(before) && !before.mode.Panicked?
    requires !msg.StartSignal? && msg.id < |before.issued|
    requires msg.Write? <==> before.issued[msg.id].op.ApiPut?
    ensures var (client, effect) := ClientModel.Step(before, Receive(msg, time));
            if before.mode.Running? && Pending(before, msg.id) then
              && Settled(client, before, {msg.id})
              && effect == Effect(Some((before.issued[msg.id].caller, Answer(TextOf(msg)))), None)
            else
              Settled(client, before, {}) && effect == NOTHING
  {
    StepKeepsTable(before, Receive(msg, time));
    PendingDisjoint(before);
  }

  lemma ReceivedKeepsInv(s: State, c: nat, msg: ServerMessage, time: int, place: nat)
    requires Inv(s) && c < |s.clients| && TableInv(s.clients[c]) && !s.clients[c].mode.Panicked?
    requires !msg.StartSignal? && msg.id < |s.clients[c].issued|
    requires msg.Write? <==> s.clients[c].issued[msg.id].op.ApiPut?
    requires Placed(BookOf(s.clients), s.log, Respond(s.clients[c].issued[msg.id].caller, Answer(TextOf(msg))), Mark(|s.log|, place))
    ensures Inv(ClientActs(s, c, Receive(msg, time), place))
  {
    ReceiveEffect(s.clients[c], msg, time);
    ActsQuietly(s, c, Receive(msg, time), place);
    var (client, effect) := ClientModel.Step(s.clients[c], Receive(msg, time));
    if effect.reply.Some? {
      PendingReplyKeepsInv(s, c, client, msg.id, Answer(TextOf(msg)), place);
    } else {
      QuietKeepsInv(s, c, client);
    }
  }

  lemma AnsweredKeepsInv(s: State, c: nat, j: nat, time: int)
    requires Inv(s) && c < |s.clients| && j < |s.nodes[c].answers|
    ensures Inv(ClientActs(s, c, Receive(s.nodes[c].answers[j].msg, time), s.nodes[c].answers[j].pos))
  {
    SentAnswer(s.log, s.nodes, BookOf(s.clients), c, j);
    assert ClientOk(s.clients[c], s.history);
    ReceivedKeepsInv(s, c, s.nodes[c].answers[j].msg, time, s.nodes[c].answers[j].pos);
  }

  // ----- All runs -----

  lemma DoKeepsInv(interval: nat, s: State, m: Move)
    requires Inv(s)
    ensures Inv(Do(interval, s, m))
  {
    if Possible(s, m) {
      match m
      case Call(c, op, accepted, time) =>
        if s.clients[c].connected && accepted {
          SentKeepsInv(s, c, op, time);
        } else {
          RefusedKeepsInv(s, c, op, time, accepted);
        }
      case Arrive(r, connection) => ArriveKeepsInv(interval, s, r, connection);
      case Decide(cmd) => DecideKeepsInv(interval, s, cmd);
      case ServerStep(i, step) => ServerStepKeepsInv(interval, s, i, step);
      case Answered(c, j, time) => AnsweredKeepsInv(s, c, j, time);
      case ClientStep(c, a) => ClientStepKeepsInv(s, c, a);
    }
  }

  lemma InitInv(n: nat)
    ensures Inv(Init(n))
  {
    InitTable();
  }

  lemma {:induction false} RunInv(n: nat, interval: nat, moves: seq<Move>)
    ensures Inv(Run(n, interval, moves))
  {
    if moves == [] {
      InitInv(n);
    } else {
      RunInv(n, interval, moves[..|moves| - 1]);
      DoKeepsInv(interval, Run(n, interval, moves[..|moves| - 1]), moves[|moves| - 1]);
    }
  }
}
