/** The server as an object: its loop over newly decided entries and its message handlers. */
module Servers {
  import opened Wrappers
  import opened Commands
  import opened Storage
  import opened Replica
  import opened Calls
  import opened ServerNetwork

  /**
   The consensus library seen from outside: one decided log, of which this server has learned
   the first `decided` entries, and the commands it was given to propose.
   */
  class OmniPaxos {
    var log: seq<Command>
    var decided: nat
    var appended: seq<Command>

    method GetDecidedIdx() returns (idx: nat)
      ensures idx == decided
    {
      idx := decided;
    }

    method ReadDecidedSuffix(start: nat) returns (entries: seq<Command>)
      requires start <= decided <= |log|
      ensures entries == log[start..decided]
    {
      entries := log[start..decided];
    }

    method Append(command: Command)
      modifies `appended
      ensures appended == old(appended) + [command]
    {
      appended := appended + [command];
    }

    /** A protocol message may extend the log and this server's knowledge of it, never take anything back. */
    method HandleIncoming(payload: nat)
      requires decided <= |log|
      modifies `log, `decided
      ensures old(log) <= log && old(decided) <= decided <= |log|
    {
      var more: seq<Command> := *;
      log := log + more;
      var d: nat :| decided <= d <= |log|;
      decided := d;
    }
  }

  /** The client connections after a list of answers was sent. */
  function SentAll(clients: map<ClientId, ClientConnection>, answers: seq<Sent>): map<ClientId, ClientConnection> {
    if answers == [] then clients
    else SentToClient(SentAll(clients, answers[..|answers| - 1]), answers[|answers| - 1].to, answers[|answers| - 1].msg)
  }

  lemma SentAllSnoc(clients: map<ClientId, ClientConnection>, answers: seq<Sent>, last: Sent)
    ensures SentAll(clients, answers + [last]) == SentToClient(SentAll(clients, answers), last.to, last.msg)
  {
    assert (answers + [last])[..|answers|] == answers;
  }

  /** What `sends` hold for client `c`, in order. */
  function MessagesTo(sends: seq<Sent>, c: ClientId): seq<ServerMessage> {
    if sends == [] then []
    else
      var last := sends[|sends| - 1];
      MessagesTo(sends[..|sends| - 1], c) + (if last.to == c then [last.msg] else [])
  }

  /** `MessagesTo` filters: nothing in nothing, a single send if it is for `c`, and parts in their order. */
  lemma {:induction false} MessagesToParts(a: seq<Sent>, b: seq<Sent>, c: ClientId)
    ensures MessagesTo(a + b, c) == MessagesTo(a, c) + MessagesTo(b, c)
  {
    if b == [] {
      assert a + b == a;
    } else {
      var init, last := b[..|b| - 1], b[|b| - 1];
      assert (a + b)[..|a + b| - 1] == a + init;
      MessagesToParts(a, init, c);
      var tail := if last.to == c then [last.msg] else [];
      assert MessagesTo(a, c) + (MessagesTo(init, c) + tail) == MessagesTo(a, c) + MessagesTo(init, c) + tail;
    }
  }

  lemma MessagesToOne(sent: Sent, c: ClientId)
    ensures MessagesTo([], c) == []
    ensures MessagesTo([sent], c) == if sent.to == c then [sent.msg] else []
  {
    assert [sent][..0] == [];
  }

  /**
   `sends` went out on the connections: every open one took exactly the messages for its client,
   in order, at the end of its queue; a closed one stayed as it was if there were none and
   went otherwise; no other connection appeared.
   */
  ghost predicate Delivered(before: map<ClientId, ClientConnection>, sends: seq<Sent>, after: map<ClientId, ClientConnection>) {
    forall c :: DeliveredTo(before, sends, after, c)
  }

  predicate DeliveredTo(before: map<ClientId, ClientConnection>, sends: seq<Sent>, after: map<ClientId, ClientConnection>, c: ClientId) {
    var messages := MessagesTo(sends, c);
    && (c in after <==> c in before && (before[c].open || messages == []))
    && (c in after ==> after[c] == before[c].(outgoing := before[c].outgoing + messages))
  }

  lemma {:induction false} SendsAreDelivered(clients: map<ClientId, ClientConnection>, sends: seq<Sent>)
    ensures Delivered(clients, sends, SentAll(clients, sends))
  {
    if sends == [] {
      forall c: ClientId | c in clients ensures clients[c].outgoing + [] == clients[c].outgoing {
      }
    } else {
      var init, last := sends[..|sends| - 1], sends[|sends| - 1];
      SendsAreDelivered(clients, init);
      forall c ensures DeliveredTo(clients, sends, SentAll(clients, sends), c) {
        assert DeliveredTo(clients, init, SentAll(clients, init), c);
      }
    }
  }

  lemma SentAllNothing(clients: map<ClientId, ClientConnection>)
    ensures SentAll(clients, []) == clients
  {
  }

  lemma {:induction false} SentAllAppend(clients: map<ClientId, ClientConnection>, a: seq<Sent>, b: seq<Sent>)
    ensures SentAll(clients, a + b) == SentAll(SentAll(clients, a), b)
  {
    if b == [] {
      assert a + b == a;
    } else {
      assert (a + b)[..|a + b| - 1] == a + b[..|b| - 1];
      SentAllAppend(clients, a, b[..|b| - 1]);
    }
  }

  /** One more position dealt with: what changes, and what does not. */
  lemma OneMore(me: NodeId, log: seq<Command>, clients: map<ClientId, ClientConnection>, start: nat, p: nat)
    requires start <= p < |log|
    ensures var before, after := AnswersBetween(me, log, start, p), AnswersBetween(me, log, start, p + 1);
            var sent := Sent(p + 1, log[p].clientId, Message(log[p], ReadBy(StateAt(log, p), log[p].kv)));
            && StateAt(log, p + 1) == Apply(StateAt(log, p), log[p].kv)
            && after == (if log[p].coordinatorId == me then before + [sent] else before)
            && SentAll(clients, after) ==
               if log[p].coordinatorId == me then SentToClient(SentAll(clients, before), sent.to, sent.msg) else SentAll(clients, before)
  {
    SentAllSnoc(clients, AnswersBetween(me, log, start, p), TheAnswer(log, p + 1));
  }

  /** The commands a batch of client requests becomes. */
  function Proposals(me: NodeId, messages: seq<(ClientId, CommandId, KVCommand)>): (r: seq<Command>)
    ensures |r| == |messages|
    ensures forall i :: 0 <= i < |messages| ==> r[i] == Command(messages[i].0, me, messages[i].1, messages[i].2)
  {
    seq(|messages|, i requires 0 <= i < |messages| => Command(messages[i].0, me, messages[i].1, messages[i].2))
  }

  function Requests(arrivals: seq<Arrival>): (r: seq<(ClientId, CommandId, KVCommand)>)
    ensures |r| == |arrivals|
    ensures forall i :: 0 <= i < |arrivals| ==> r[i] == (arrivals[i].from, arrivals[i].id, arrivals[i].kv)
  {
    seq(|arrivals|, i requires 0 <= i < |arrivals| => (arrivals[i].from, arrivals[i].id, arrivals[i].kv))
  }

  /**
   From request to answer. Wherever in the log the proposal made for the `k`-th request of this
   incarnation is decided, and whatever happens to the connections meanwhile, its answer is
   taken by the connection on the socket the request came in on, if that is still filed and
   open, and by no other.
   */
  lemma AnswersReturnToTheirRequests(
      me: NodeId, peers: seq<NodeId>, events: seq<Happening>, more: seq<Happening>, k: nat, log: seq<Command>, p: nat)
    requires k < |Life(peers, events).arrivals| && 1 <= p <= |log|
    requires log[p - 1] == Proposals(me, Requests(Life(peers, events).arrivals))[k]
    ensures var sent := TheAnswer(log, p);
            var before, after := Life(peers, events + more).tables, Life(peers, events + more + [SendsToClient(sent.to, sent.msg)]).tables;
            && OnlyTakenBy(before, after, sent.to, sent.msg)
            && after.slots == before.slots
            && forall c :: c in before.clients ==>
                             (before.clients[c].socket == Life(peers, events).arrivals[k].socket <==> c == sent.to)
  {
    AnswersGoBackOrNowhere(peers, events, more, k, TheAnswer(log, p).msg);
  }

  /** The start signal, for each of the clients registered first. */
  function Signals(numClients: nat, time: int): (r: seq<Sent>)
    ensures |r| == numClients && forall i :: 0 <= i < numClients ==> r[i] == Sent(0, i + 1, StartSignal(time))
  {
    seq(numClients, i requires 0 <= i < numClients => Sent(0, i + 1, StartSignal(time)))
  }

  lemma {:induction false} SignalsTo(numClients: nat, time: int, c: ClientId)
    ensures MessagesTo(Signals(numClients, time), c) == if 1 <= c <= numClients then [StartSignal(time)] else []
  {
    if numClients > 0 {
      var all := Signals(numClients, time);
      assert all[..numClients - 1] == Signals(numClients - 1, time);
      SignalsTo(numClients - 1, time, c);
    }
  }

  /** The clients registered first got the start signal, exactly once and with this time, if connected; no other got anything. */
  ghost predicate Signalled(before: map<ClientId, ClientConnection>, numClients: nat, time: int, after: map<ClientId, ClientConnection>) {
    && (forall c :: !(1 <= c <= numClients) ==> (c in after <==> c in before) && (c in before ==> after[c] == before[c]))
    && (forall c :: 1 <= c <= numClients ==> (c in after <==> c in before && before[c].open))
    && (forall c :: 1 <= c <= numClients && c in after ==> after[c] == before[c].(outgoing := before[c].outgoing + [StartSignal(time)]))
  }

  lemma SignalsAreDelivered(clients: map<ClientId, ClientConnection>, numClients: nat, time: int)
    ensures Signalled(clients, numClients, time, SentAll(clients, Signals(numClients, time)))
  {
    var sends := Signals(numClients, time);
    var after := SentAll(clients, sends);
    SendsAreDelivered(clients, sends);
    forall c: ClientId
      ensures c in after <==> c in clients && (!(1 <= c <= numClients) || clients[c].open)
      ensures c in after ==> after[c] == clients[c].(outgoing := clients[c].outgoing + if 1 <= c <= numClients then [StartSignal(time)] else [])
    {
      SignalsTo(numClients, time, c);
      assert DeliveredTo(clients, sends, after, c);
    }
    forall c: ClientId | c in clients ensures clients[c].outgoing + [] == clients[c].outgoing {
    }
  }

  /** What the library reports after a message, and the input-output step at which a save would then fail, if any. */
  datatype Look = Look(log: seq<Command>, decided: nat, failing: Option<SaveIo>)

  predicate Reportable(snapshotIdx: nat, look: Look) {
    look.decided <= |look.log| && snapshotIdx <= |look.log|
  }

  /** A server after one message from another server, and what it sends its clients. */
  function AfterMessage(interval: nat, me: NodeId, numClients: nat, v: Node, message: ClusterMessage, look: Look): (r: (Node, seq<Sent>))
    requires Reportable(v.snapshotIdx, look)
    ensures r.0.snapshotIdx == v.snapshotIdx
  {
    var informed := v.(learned := look.decided);
    match message
    case OmniPaxosMessage(_) =>
      var after := HandleDecided(interval, me, look.log, informed, look.failing);
      (after, after.answers[|v.answers|..])
    case LeaderStartSignal(time) => (informed, Signals(numClients, time))
  }

  function AfterBatch(interval: nat, me: NodeId, numClients: nat, v: Node, messages: seq<(NodeId, ClusterMessage)>, looks: seq<Look>): (r: (Node, seq<Sent>))
    requires |looks| == |messages|
    requires forall i :: 0 <= i < |looks| ==> Reportable(v.snapshotIdx, looks[i])
    ensures r.0.snapshotIdx == v.snapshotIdx
  {
    if messages == [] then (v, [])
    else
      var n := |messages| - 1;
      var (u, sends) := AfterBatch(interval, me, numClients, v, messages[..n], looks[..n]);
      var (r, more) := AfterMessage(interval, me, numClients, u, messages[n].1, looks[n]);
      (r, sends + more)
  }

  lemma AfterBatchSnoc(interval: nat, me: NodeId, numClients: nat, v: Node,
                       messages: seq<(NodeId, ClusterMessage)>, looks: seq<Look>, message: (NodeId, ClusterMessage), look: Look)
    requires |looks| == |messages|
    requires Reportable(v.snapshotIdx, look) && forall i :: 0 <= i < |looks| ==> Reportable(v.snapshotIdx, looks[i])
    ensures var (u, sends) := AfterBatch(interval, me, numClients, v, messages, looks);
            var (r, more) := AfterMessage(interval, me, numClients, u, message.1, look);
            AfterBatch(interval, me, numClients, v, messages + [message], looks + [look]) == (r, sends + more)
  {
    assert (messages + [message])[..|messages|] == messages && (looks + [look])[..|looks|] == looks;
  }

  /** No messages change and send nothing; one does what a message does. */
  lemma SmallBatches(interval: nat, me: NodeId, numClients: nat, v: Node, message: (NodeId, ClusterMessage), look: Look)
    requires Reportable(v.snapshotIdx, look)
    ensures AfterBatch(interval, me, numClients, v, [], []) == (v, [])
    ensures AfterBatch(interval, me, numClients, v, [message], [look]) == AfterMessage(interval, me, numClients, v, message.1, look)
  {
    var none: seq<Sent>, messages: seq<(NodeId, ClusterMessage)>, looks: seq<Look> := [], [], [];
    AfterBatchSnoc(interval, me, numClients, v, messages, looks, message, look);
    assert messages + [message] == [message] && looks + [look] == [look];
    var (r, more) := AfterMessage(interval, me, numClients, v, message.1, look);
    assert none + more == more;
  }

  lemma EmptyBatch(interval: nat, me: NodeId, numClients: nat, v: Node)
    ensures AfterBatch(interval, me, numClients, v, [], []) == (v, [])
  {
  }

  /** A batch in two parts: the second goes on from where the first led, and sends after it. */
  lemma {:induction false} BatchInParts(
      interval: nat, me: NodeId, numClients: nat, v: Node,
      a: seq<(NodeId, ClusterMessage)>, b: seq<(NodeId, ClusterMessage)>, looksA: seq<Look>, looksB: seq<Look>)
    requires |looksA| == |a| && |looksB| == |b|
    requires forall i :: 0 <= i < |looksA| ==> Reportable(v.snapshotIdx, looksA[i])
    requires forall i :: 0 <= i < |looksB| ==> Reportable(v.snapshotIdx, looksB[i])
    ensures var (u, sends) := AfterBatch(interval, me, numClients, v, a, looksA);
            var (r, more) := AfterBatch(interval, me, numClients, u, b, looksB);
            AfterBatch(interval, me, numClients, v, a + b, looksA + looksB) == (r, sends + more)
  {
    hide AfterMessage, AfterBatch;
    var (u, sends) := AfterBatch(interval, me, numClients, v, a, looksA);
    if b == [] {
      EmptyBatch(interval, me, numClients, u);
      assert a + b == a && looksA + looksB == looksA && sends + [] == sends;
    } else {
      var n := |b| - 1;
      BatchInParts(interval, me, numClients, v, a, b[..n], looksA, looksB[..n]);
      AfterBatchSnoc(interval, me, numClients, u, b[..n], looksB[..n], b[n], looksB[n]);
      AfterBatchSnoc(interval, me, numClients, v, a + b[..n], looksA + looksB[..n], b[n], looksB[n]);
      var (w, early) := AfterBatch(interval, me, numClients, u, b[..n], looksB[..n]);
      var (r, late) := AfterMessage(interval, me, numClients, w, b[n].1, looksB[n]);
      assert sends + (early + late) == sends + early + late;
      assert b[..n] + [b[n]] == b && looksB[..n] + [looksB[n]] == looksB;
      assert a + b == a + b[..n] + [b[n]] && looksA + looksB == looksA + looksB[..n] + [looksB[n]];
    }
  }

  function LogBefore(log: seq<Command>, looks: seq<Look>, i: nat): seq<Command>
    requires i <= |looks|
  {
    if i == 0 then log else looks[i - 1].log
  }

  function DecidedBefore(decided: nat, looks: seq<Look>, i: nat): nat
    requires i <= |looks|
  {
    if i == 0 then decided else looks[i - 1].decided
  }

  /** Message `i` takes nothing back, and a start signal brings nothing. */
  predicate LooksOn(log: seq<Command>, decided: nat, messages: seq<(NodeId, ClusterMessage)>, looks: seq<Look>, i: nat)
    requires i < |looks| == |messages|
  {
    var l, d := LogBefore(log, looks, i), DecidedBefore(decided, looks, i);
    l <= looks[i].log && d <= looks[i].decided && (messages[i].1.LeaderStartSignal? ==> l == looks[i].log && d == looks[i].decided)
  }

  /** From what was known before the messages to what is known after them; the last look says what that is. */
  predicate Climb(log: seq<Command>, decided: nat, messages: seq<(NodeId, ClusterMessage)>, looks: seq<Look>,
                  log': seq<Command>, decided': nat)
    requires |looks| == |messages|
  {
    && log' == LogBefore(log, looks, |looks|) && decided' == DecidedBefore(decided, looks, |looks|)
    && forall i :: 0 <= i < |looks| ==> LooksOn(log, decided, messages, looks, i)
  }

  lemma ClimbOn(log: seq<Command>, decided: nat, messages: seq<(NodeId, ClusterMessage)>, looks: seq<Look>,
                log': seq<Command>, decided': nat, message: (NodeId, ClusterMessage), look: Look)
    requires |looks| == |messages| && Climb(log, decided, messages, looks, log', decided')
    requires log' <= look.log && decided' <= look.decided
    requires message.1.LeaderStartSignal? ==> log' == look.log && decided' == look.decided
    ensures Climb(log, decided, messages + [message], looks + [look], look.log, look.decided)
  {
    forall i | 0 <= i < |looks| ensures LooksOn(log, decided, messages + [message], looks + [look], i) {
      assert LooksOn(log, decided, messages, looks, i);
    }
  }

  /**
   From `v` to `r` the server has made one walk over the decided entries: the answers are those
   owed in between. If it has looked, nothing decided is left to deal with.
   */
  predicate OneWalk(me: NodeId, v: Node, log: seq<Command>, r: Node, decided: nat, looked: bool) {
    && r.current <= r.learned == decided <= |log|
    && r.snapshotIdx == v.snapshotIdx <= |log|
    && CallEnd(v, 0) <= CallEnd(r, 0)
    && r.answers == v.answers + AnswersBetween(me, log, CallEnd(v, 0), CallEnd(r, 0))
    && (looked ==> r.current == r.learned)
  }

  lemma StandingStill(me: NodeId, v: Node, log: seq<Command>)
    requires v.current <= v.learned <= |log| && v.snapshotIdx <= |log|
    ensures OneWalk(me, v, log, v, v.learned, AnyLook([]))
  {
    assert AnswersBetween(me, log, CallEnd(v, 0), CallEnd(v, 0)) == [];
  }

  lemma MessageWalks(interval: nat, me: NodeId, numClients: nat, v: Node, message: ClusterMessage, look: Look)
    requires Reportable(v.snapshotIdx, look) && v.current <= v.learned <= look.decided
    requires message.LeaderStartSignal? ==> v.learned == look.decided
    ensures var r := AfterMessage(interval, me, numClients, v, message, look).0;
            OneWalk(me, v, look.log, r, look.decided, message.OmniPaxosMessage? || v.current == v.learned)
  {
    assert AnswersBetween(me, look.log, CallEnd(v, 0), CallEnd(v, 0)) == [];
  }

  /** A walk to `u`, and from there a walk to `r`. */
  lemma WalksJoin(me: NodeId, v: Node, log: seq<Command>, u: Node, looked: bool, log': seq<Command>, r: Node, again: bool)
    requires log <= log' && OneWalk(me, v, log, u, u.learned, looked)
    requires OneWalk(me, u, log', r, r.learned, again || u.current == u.learned)
    ensures OneWalk(me, v, log', r, r.learned, looked || again)
  {
    hide AnswersBetween;
    var a, b, c := CallEnd(v, 0), CallEnd(u, 0), CallEnd(r, 0);
    AnswersBetweenPrefix(me, log, log', a, b);
    AnswersBetweenSplit(me, log', a, b, c);
    assert v.answers + AnswersBetween(me, log', a, c) == v.answers + AnswersBetween(me, log', a, b) + AnswersBetween(me, log', b, c);
  }

  lemma MessageWalksOn(
      interval: nat, me: NodeId, numClients: nat, v: Node, log: seq<Command>, u: Node, looked: bool,
      message: ClusterMessage, look: Look)
    requires OneWalk(me, v, log, u, u.learned, looked)
    requires Reportable(u.snapshotIdx, look) && log <= look.log && u.learned <= look.decided
    requires message.LeaderStartSignal? ==> u.learned == look.decided
    ensures var r := AfterMessage(interval, me, numClients, u, message, look).0;
            OneWalk(me, v, look.log, r, r.learned, looked || message.OmniPaxosMessage?)
  {
    hide AfterMessage;
    var r := AfterMessage(interval, me, numClients, u, message, look).0;
    MessageWalks(interval, me, numClients, u, message, look);
    WalksJoin(me, v, log, u, looked, look.log, r, message.OmniPaxosMessage?);
  }

  predicate AnyLook(messages: seq<(NodeId, ClusterMessage)>) {
    exists i :: 0 <= i < |messages| && messages[i].1.OmniPaxosMessage?
  }

  predicate AnySignal(messages: seq<(NodeId, ClusterMessage)>) {
    exists i :: 0 <= i < |messages| && messages[i].1.LeaderStartSignal?
  }

  lemma AnySnoc(messages: seq<(NodeId, ClusterMessage)>, message: (NodeId, ClusterMessage))
    ensures AnyLook(messages + [message]) == (AnyLook(messages) || message.1.OmniPaxosMessage?)
    ensures AnySignal(messages + [message]) == (AnySignal(messages) || message.1.LeaderStartSignal?)
  {
    var all := messages + [message];
    assert all[|messages|] == message;
    if i :| 0 <= i < |messages| && messages[i].1.OmniPaxosMessage? {
      assert all[i].1.OmniPaxosMessage?;
    }
    if i :| 0 <= i < |messages| && messages[i].1.LeaderStartSignal? {
      assert all[i].1.LeaderStartSignal?;
    }
  }

  /**
   The whole effect of handling `messages`, from the server `v` to the server `r`, when the library
   reported `looks`; `sends` is what the clients were sent.
   */
  predicate Handled(
      interval: nat, me: NodeId, numClients: nat, log: seq<Command>, v: Node,
      messages: seq<(NodeId, ClusterMessage)>, failing: seq<Option<SaveIo>>, looks: seq<Look>,
      log': seq<Command>, r: Node, sends: seq<Sent>, signal: bool)
  {
    && |looks| == |messages| == |failing|
    && (forall i :: 0 <= i < |looks| ==> looks[i].failing == failing[i] && Reportable(v.snapshotIdx, looks[i]))
    && Climb(log, v.learned, messages, looks, log', r.learned)
    && (r, sends) == AfterBatch(interval, me, numClients, v, messages, looks)
    && (signal <==> AnySignal(messages))
  }

  lemma NothingYet(interval: nat, me: NodeId, numClients: nat, log: seq<Command>, v: Node)
    ensures Handled(interval, me, numClients, log, v, [], [], [], log, v, [], false)
  {
  }

  lemma HandledOn(
      interval: nat, me: NodeId, numClients: nat, log: seq<Command>, v: Node,
      messages: seq<(NodeId, ClusterMessage)>, failing: seq<Option<SaveIo>>, looks: seq<Look>,
      log': seq<Command>, u: Node, sends: seq<Sent>, signal: bool, message: (NodeId, ClusterMessage), look: Look)
    requires Handled(interval, me, numClients, log, v, messages, failing, looks, log', u, sends, signal)
    requires log' <= look.log && u.learned <= look.decided && Reportable(u.snapshotIdx, look)
    requires message.1.LeaderStartSignal? ==> log' == look.log && u.learned == look.decided
    ensures var (r, more) := AfterMessage(interval, me, numClients, u, message.1, look);
            Handled(interval, me, numClients, log, v, messages + [message], failing + [look.failing], looks + [look],
                    look.log, r, sends + more, signal || message.1.LeaderStartSignal?)
  {
    hide AfterMessage, AfterBatch, Climb, OneWalk, AnySignal, AnyLook;
    AfterBatchSnoc(interval, me, numClients, v, messages, looks, message, look);
    ClimbOn(log, v.learned, messages, looks, log', u.learned, message, look);
    AnySnoc(messages, message);
    AfterMessageLearns(interval, me, numClients, u, message.1, look);
  }

  lemma AfterMessageLearns(interval: nat, me: NodeId, numClients: nat, v: Node, message: ClusterMessage, look: Look)
    requires Reportable(v.snapshotIdx, look)
    ensures AfterMessage(interval, me, numClients, v, message, look).0.learned == look.decided
  {
  }

  class OmniPaxosServer {
    const id: NodeId
    const interval: nat
    const numClients: nat
    const path: string
    const database: Database
    const fs: FileSystem
    const network: Network
    const omnipaxos: OmniPaxos
    var currentDecidedIdx: nat
    var entriesSinceSnapshot: nat
    var snapshotDecidedIdx: nat
    ghost var answers: seq<Sent>  // handed to the network in this incarnation

    /** The server between calls, as a node of the small-step model. */
    ghost function View(): Node
      reads this, database, fs, omnipaxos
    {
      Node(true, currentDecidedIdx, snapshotDecidedIdx, entriesSinceSnapshot, omnipaxos.decided, database.db,
           Idle, DiskAt(fs.files, path), answers, 0)
    }

    ghost function AppliedIdx(): nat
      reads this
    {
      Max(currentDecidedIdx, snapshotDecidedIdx)
    }

    ghost predicate Valid()
      reads this, database, omnipaxos
    {
      && currentDecidedIdx <= omnipaxos.decided <= |omnipaxos.log|
      && snapshotDecidedIdx <= |omnipaxos.log|
      && database.db == StateAt(omnipaxos.log, AppliedIdx())
      && database.snapshotPath == Some(path)
    }

    /** Starting a server: from the snapshot if one can be loaded, and from nothing otherwise. */
    constructor (id: NodeId, interval: nat, numClients: nat, path: string, fs: FileSystem, readable: bool,
                 omnipaxos: OmniPaxos, network: Network)
      requires DiskOk(omnipaxos.log, DiskAt(fs.files, path)) && omnipaxos.decided <= |omnipaxos.log|
      ensures Valid()
      ensures this.id == id && this.interval == interval && this.numClients == numClients && this.path == path
      ensures this.fs == fs && this.omnipaxos == omnipaxos && this.network == network && fresh(database)
      ensures View() == NextRecover(INIT.(disk := DiskAt(fs.files, path)), readable, omnipaxos.decided)
    {
      var recovered, recoveredIdx := Database.Recover(fs, path, readable);
      var db: Database;
      if recovered == null {
        db := new Database();
      } else {
        db := recovered;
      }
      this.id, this.interval, this.numClients, this.path := id, interval, numClients, path;
      this.fs, this.omnipaxos, this.network := fs, omnipaxos, network;
      database := db;
      currentDecidedIdx, entriesSinceSnapshot, snapshotDecidedIdx := 0, 0, recoveredIdx;
      answers := [];
      new;
      database.SetSnapshotPath(path);
    }

    /** One decided command: applied to the database, and answered if this server coordinates it. */
    method ApplyAndReply(command: Command, ghost entryIdx: nat)
      modifies `answers, database`db, network`clientConnections
      ensures database.db == Apply(old(database.db), command.kv)
      ensures var sent := Sent(entryIdx, command.clientId, Message(command, ReadBy(old(database.db), command.kv)));
              if command.coordinatorId == id then
                && answers == old(answers) + [sent]
                && network.clientConnections == SentToClient(old(network.clientConnections), sent.to, sent.msg)
              else
                answers == old(answers) && network.clientConnections == old(network.clientConnections)
    {
      var read := database.HandleCommand(command.kv);
      if command.coordinatorId == id {
        var response := if read.Some? then Read(command.id, read.value) else Write(command.id);
        network.SendToClient(command.clientId, response);
        answers := answers + [Sent(entryIdx, command.clientId, response)];
      }
    }

    /** No file but the snapshot and its temporary file is touched. */
    twostate predicate OtherFilesKept()
      reads fs
    {
      forall p :: p != path && p != TmpPath(path) ==> FileAt(fs.files, p) == old(FileAt(fs.files, p))
    }

    /** After new entries: a save once enough of them have gathered, whether or not it succeeds. */
    method PersistIfDue(newEntriesApplied: nat, failing: Option<SaveIo>)
      requires database.snapshotPath == Some(path)
      modifies `entriesSinceSnapshot, fs
      ensures var since := old(entriesSinceSnapshot) + newEntriesApplied;
              && entriesSinceSnapshot == (if since >= interval then 0 else since)
              && DiskAt(fs.files, path) ==
                 if since >= interval
                 then SaveFrom(old(DiskAt(fs.files, path)), DatabaseSnapshot(database.db, currentDecidedIdx), CreateTmp, failing)
                 else old(DiskAt(fs.files, path))
      ensures OtherFilesKept()
    {
      entriesSinceSnapshot := entriesSinceSnapshot + newEntriesApplied;
      if entriesSinceSnapshot >= interval {
        database.SaveSnapshot(fs, currentDecidedIdx, failing);
        entriesSinceSnapshot := 0;
      }
    }

    /** The loop over decided commands: positions the snapshot covers are skipped, the others applied. */
    method ApplyEntries(decidedCommands: seq<Command>, oldDecidedIdx: nat) returns (newEntriesApplied: nat)
      requires var log := omnipaxos.log;
               && snapshotDecidedIdx <= |log| && oldDecidedIdx + |decidedCommands| <= |log|
               && (forall i :: 0 <= i < |decidedCommands| ==> decidedCommands[i] == log[oldDecidedIdx + i])
               && database.db == StateAt(log, Max(oldDecidedIdx, snapshotDecidedIdx))
      modifies `answers, database`db, network`clientConnections
      ensures var log := omnipaxos.log;
              var start := Max(oldDecidedIdx, snapshotDecidedIdx);
              var end := Max(oldDecidedIdx + |decidedCommands|, snapshotDecidedIdx);
              && newEntriesApplied == end - start
              && database.db == StateAt(log, end)
              && answers == old(answers) + AnswersBetween(id, log, start, end)
              && network.clientConnections == SentAll(old(network.clientConnections), AnswersBetween(id, log, start, end))
              && Delivered(old(network.clientConnections), AnswersBetween(id, log, start, end), network.clientConnections)
    {
      ghost var log := omnipaxos.log;
      ghost var start := Max(oldDecidedIdx, snapshotDecidedIdx);
      ghost var clients := network.clientConnections;
      ghost var at := start;  // the position reached
      newEntriesApplied := 0;
      assert AnswersBetween(id, log, start, start) == [];
      for i := 0 to |decidedCommands|
        invariant at == Max(oldDecidedIdx + i, snapshotDecidedIdx)
        invariant database.db == StateAt(log, at)
        invariant newEntriesApplied == at - start
        invariant answers == old(answers) + AnswersBetween(id, log, start, at)
        invariant network.clientConnections == SentAll(clients, AnswersBetween(id, log, start, at))
      {
        var command := decidedCommands[i];
        var entryIdx := oldDecidedIdx + i + 1;
        if entryIdx <= snapshotDecidedIdx {
          continue;
        }
        OneMore(id, log, clients, start, at);
        ApplyAndReply(command, entryIdx);
        newEntriesApplied := newEntriesApplied + 1;
        at := at + 1;
      }
      SendsAreDelivered(clients, AnswersBetween(id, log, start, at));
    }

    /** `failing` is the input-output step at which a save would fail, if any. */
    method HandleDecidedEntries(failing: Option<SaveIo>)
      requires Valid()
      modifies this, database, network`clientConnections, fs
      ensures Valid() && OtherFilesKept()
      ensures View() == HandleDecided(interval, id, omnipaxos.log, old(View()), failing)
      ensures network.clientConnections ==
              SentAll(old(network.clientConnections), AnswersBetween(id, omnipaxos.log, old(AppliedIdx()), AppliedIdx()))
      ensures Delivered(old(network.clientConnections), AnswersBetween(id, omnipaxos.log, old(AppliedIdx()), AppliedIdx()),
                        network.clientConnections)
    {
      hide StateAt, SaveFrom, Delivered;
      SendsAreDelivered(network.clientConnections, []);
      var newDecidedIdx := omnipaxos.GetDecidedIdx();
      if currentDecidedIdx < newDecidedIdx {
        var decidedCommands := omnipaxos.ReadDecidedSuffix(currentDecidedIdx);
        var oldDecidedIdx := currentDecidedIdx;
        currentDecidedIdx := newDecidedIdx;
        var newEntriesApplied := ApplyEntries(decidedCommands, oldDecidedIdx);
        if newEntriesApplied > 0 {
          PersistIfDue(newEntriesApplied, failing);
        }
      }
    }

    method AppendToLog(sender: ClientId, commandId: CommandId, kvCommand: KVCommand)
      modifies omnipaxos`appended
      ensures omnipaxos.appended == old(omnipaxos.appended) + [Command(sender, id, commandId, kvCommand)]
    {
      omnipaxos.Append(Command(sender, id, commandId, kvCommand));
    }

    /** Every request becomes one proposal, in order, under the connection it arrived on. */
    method HandleClientMessages(messages: seq<(ClientId, CommandId, KVCommand)>)
      modifies omnipaxos`appended
      ensures omnipaxos.appended == old(omnipaxos.appended) + Proposals(id, messages)
    {
      for i := 0 to |messages|
        invariant omnipaxos.appended == old(omnipaxos.appended) + Proposals(id, messages[..i])
      {
        AppendToLog(messages[i].0, messages[i].1, messages[i].2);
        assert Proposals(id, messages[..i + 1]) == Proposals(id, messages[..i]) + [Command(messages[i].0, id, messages[i].1, messages[i].2)];
      }
      assert messages[..|messages|] == messages;
    }

    method SendClientStartSignals(startTime: int)
      modifies network`clientConnections
      ensures network.clientConnections == SentAll(old(network.clientConnections), Signals(numClients, startTime))
      ensures Signalled(old(network.clientConnections), numClients, startTime, network.clientConnections)
    {
      ghost var clients := network.clientConnections;
      for clientId := 1 to numClients + 1
        invariant network.clientConnections == SentAll(clients, Signals(clientId - 1, startTime))
      {
        SentAllSnoc(clients, Signals(clientId - 1, startTime), Sent(0, clientId, StartSignal(startTime)));
        assert Signals(clientId, startTime) == Signals(clientId - 1, startTime) + [Sent(0, clientId, StartSignal(startTime))];
        network.SendToClient(clientId, StartSignal(startTime));
      }
      SignalsAreDelivered(clients, numClients, startTime);
    }

    /** One protocol message, followed by a look at the decided log. */
    method HandleOmniPaxosMessage(payload: nat, failing: Option<SaveIo>) returns (ghost sends: seq<Sent>)
      requires Valid()
      modifies this, database, network`clientConnections, fs, omnipaxos`log, omnipaxos`decided
      ensures Valid() && OtherFilesKept() && currentDecidedIdx == omnipaxos.decided
      ensures old(omnipaxos.log) <= omnipaxos.log && old(omnipaxos.decided) <= omnipaxos.decided
      ensures (View(), sends) ==
              AfterMessage(interval, id, numClients, old(View()), OmniPaxosMessage(payload), Look(omnipaxos.log, omnipaxos.decided, failing))
      ensures sends == AnswersBetween(id, omnipaxos.log, old(AppliedIdx()), AppliedIdx())
      ensures network.clientConnections == SentAll(old(network.clientConnections), sends)
    {
      ghost var log, start := omnipaxos.log, AppliedIdx();
      omnipaxos.HandleIncoming(payload);
      StateAtPrefix(log, omnipaxos.log, start);
      HandleDecidedEntries(failing);
      assert AnswersBetween(id, omnipaxos.log, start, start) == [];
      sends := AnswersBetween(id, omnipaxos.log, start, AppliedIdx());
      assert answers[|old(answers)|..] == sends;
    }

    /** One message from another server. */
    method HandleClusterMessage(message: ClusterMessage, failing: Option<SaveIo>) returns (startSignal: bool, ghost sends: seq<Sent>)
      requires Valid()
      modifies this, database, network`clientConnections, fs, omnipaxos`log, omnipaxos`decided
      ensures Valid() && OtherFilesKept()
      ensures old(omnipaxos.log) <= omnipaxos.log && old(omnipaxos.decided) <= omnipaxos.decided
      ensures (View(), sends) ==
              AfterMessage(interval, id, numClients, old(View()), message, Look(omnipaxos.log, omnipaxos.decided, failing))
      ensures network.clientConnections == SentAll(old(network.clientConnections), sends)
      ensures snapshotDecidedIdx == old(snapshotDecidedIdx)
      ensures message.LeaderStartSignal? ==> omnipaxos.log == old(omnipaxos.log) && omnipaxos.decided == old(omnipaxos.decided)
      ensures startSignal <==> message.LeaderStartSignal?
    {
      match message
      case OmniPaxosMessage(payload) =>
        startSignal := false;
        sends := HandleOmniPaxosMessage(payload, failing);
      case LeaderStartSignal(startTime) =>
        startSignal, sends := true, Signals(numClients, startTime);
        SendClientStartSignals(startTime);
    }

    /**
     A batch of messages from other servers, each followed by a look at the decided log: `looks`
     is what it saw. The server, its snapshot file and what its clients are sent are what the
     messages make of them, and in all it has made one walk over the decided entries.
     */
    method HandleClusterMessages(messages: seq<(NodeId, ClusterMessage)>, failing: seq<Option<SaveIo>>)
      returns (receivedStartSignal: bool, ghost looks: seq<Look>, ghost sends: seq<Sent>)
      requires Valid() && |failing| == |messages|
      modifies this, database, network`clientConnections, fs, omnipaxos`log, omnipaxos`decided
      ensures Valid() && OtherFilesKept()
      ensures Handled(interval, id, numClients, old(omnipaxos.log), old(View()), messages, failing, looks,
                      omnipaxos.log, View(), sends, receivedStartSignal)
      ensures Delivered(old(network.clientConnections), sends, network.clientConnections)
      ensures OneWalk(id, old(View()), omnipaxos.log, View(), omnipaxos.decided, AnyLook(messages))
    {
      hide Handled, OneWalk, AnyLook, AfterMessage, StateAt, SentAll, Delivered;
      receivedStartSignal, looks, sends := false, [], [];
      ghost var log, v, clients := omnipaxos.log, View(), network.clientConnections;
      NothingYet(interval, id, numClients, log, v);
      StandingStill(id, v, log);
      SentAllNothing(clients);
      for i := 0 to |messages|
        invariant Valid() && OtherFilesKept()
        invariant Handled(interval, id, numClients, log, v, messages[..i], failing[..i], looks,
                          omnipaxos.log, View(), sends, receivedStartSignal)
        invariant network.clientConnections == SentAll(clients, sends)
        invariant OneWalk(id, v, omnipaxos.log, View(), omnipaxos.decided, AnyLook(messages[..i]))
      {
        ghost var mid, u, signal := omnipaxos.log, View(), receivedStartSignal;
        var startSignal, more := HandleClusterMessage(messages[i].1, failing[i]);
        receivedStartSignal := receivedStartSignal || startSignal;
        ghost var look := Look(omnipaxos.log, omnipaxos.decided, failing[i]);
        HandledOn(interval, id, numClients, log, v, messages[..i], failing[..i], looks, mid, u, sends, signal, messages[i], look);
        MessageWalksOn(interval, id, numClients, v, mid, u, AnyLook(messages[..i]), messages[i].1, look);
        AnySnoc(messages[..i], messages[i]);
        SentAllAppend(clients, sends, more);
        looks, sends := looks + [look], sends + more;
        assert messages[..i + 1] == messages[..i] + [messages[i]] && failing[..i + 1] == failing[..i] + [failing[i]];
      }
      assert messages[..|messages|] == messages && failing[..|messages|] == failing;
      SendsAreDelivered(clients, sends);
    }
  }
}
