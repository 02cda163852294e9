/** The main results about the whole system, over every run. */
module Linearizability {
  import opened Wrappers
  import opened Commands
  import opened ClientModel
  import opened History
  import opened Cluster
  import opened ClusterInvariant
  import Compaction
  import Replica

  /** The calls in the order of their log entries. */
  function CallOrder(s: State): (order: seq<nat>)
    ensures |order| == |s.log|
    ensures forall i :: 0 <= i < |s.log| ==> order[i] == CallOf(BookOf(s.clients), s.log[i])
  {
    seq(|s.log|, i requires 0 <= i < |s.log| => CallOf(BookOf(s.clients), s.log[i]))
  }

  lemma EntryIsCall(s: State, i: nat)
    requires Inv(s) && i < |s.log|
    ensures IsCall(s.history, CallOrder(s)[i])
    ensures ToKv(s.history[CallOrder(s)[i]].op) == s.log[i].kv
    ensures s.marks[CallOrder(s)[i]].stamp <= i
  {
    var cmd := s.log[i];
    assert InBook(BookOf(s.clients), cmd.coordinatorId, cmd.id, cmd.kv);
  }

  lemma SameCallSameEntry(s: State, i: nat, j: nat)
    requires Inv(s) && i < |s.log| && j < |s.log|
    requires CallOrder(s)[i] == CallOrder(s)[j]
    ensures i == j
  {
    var book: Book := BookOf(s.clients);
    var a, b := s.log[i], s.log[j];
    assert InBook(book, a.coordinatorId, a.id, a.kv) && InBook(book, b.coordinatorId, b.id, b.kv);
    CallerInjective(book, s.history, a.coordinatorId, a.id, b.coordinatorId, b.id);
    assert Key(s.log[i]) == Key(s.log[j]);
  }

  /** What the log says about the history, with `order` naming the call of each entry. */
  predicate Explains(log: seq<Command>, h: seq<Event>, marks: seq<Mark>, order: seq<nat>) {
    && |order| == |log| && |marks| == |h|
    && StampsOk(marks, |log|)
    && Once(order)
    && (forall i :: 0 <= i < |order| ==> Made(log, h, marks, order, i))
    && (forall e :: 0 <= e < |h| && h[e].Respond? && h[e].reply.Answer? ==> Given(log, h, marks, order, e))
  }

  /** The call of entry `i` was made before the entry was decided. */
  predicate Made(log: seq<Command>, h: seq<Event>, marks: seq<Mark>, order: seq<nat>, i: nat)
    requires i < |order| == |log| && |marks| == |h|
  {
    IsCall(h, order[i]) && ToKv(h[order[i]].op) == log[i].kv && marks[order[i]].stamp <= i
  }

  /** Answer `e` was given after the one entry it answers was decided. */
  predicate Given(log: seq<Command>, h: seq<Event>, marks: seq<Mark>, order: seq<nat>, e: nat)
    requires e < |h| == |marks| && |order| == |log| && h[e].Respond?
  {
    && 1 <= marks[e].place <= marks[e].stamp <= |log|
    && order[marks[e].place - 1] == h[e].call
    && h[e].reply.text == TextOf(AnswerAt(log, marks[e].place))
  }

  lemma LogExplains(s: State)
    requires Inv(s)
    ensures Explains(s.log, s.history, s.marks, CallOrder(s))
  {
    var order := CallOrder(s);
    forall i | 0 <= i < |order| ensures Made(s.log, s.history, s.marks, order, i) {
      EntryIsCall(s, i);
    }
    forall i, j | 0 <= i < j < |order| ensures order[i] != order[j] {
      if order[i] == order[j] {
        SameCallSameEntry(s, i, j);
      }
    }
    forall e | 0 <= e < |s.history| && s.history[e].Respond? && s.history[e].reply.Answer?
      ensures Given(s.log, s.history, s.marks, order, e)
    {
      assert Placed(BookOf(s.clients), s.log, s.history[e], s.marks[e]);
    }
  }

  /** A completed call has exactly one entry, decided before it completed. */
  lemma CompletedAt(log: seq<Command>, h: seq<Event>, marks: seq<Mark>, order: seq<nat>, e: int, i: nat)
    requires Explains(log, h, marks, order) && i < |order| && Completes(h, e, order[i])
    ensures i < marks[e].stamp <= |log|
    ensures h[e].reply.text == TextOf(AnswerAt(log, i + 1))
  {
    assert Given(log, h, marks, order, e);
    OnceAt(order, marks[e].place - 1, i);
  }

  lemma OrderComplete(log: seq<Command>, h: seq<Event>, marks: seq<Mark>, order: seq<nat>)
    requires Explains(log, h, marks, order)
    ensures Complete(h, order)
  {
    forall e | 0 <= e < |h| && h[e].Respond? && h[e].reply.Answer? ensures h[e].call in order {
      assert Given(log, h, marks, order, e);
    }
  }

  /** Events stamped later happened later. */
  lemma StampedLater(marks: seq<Mark>, length: nat, call: nat, e: nat)
    requires StampsOk(marks, length) && call < |marks| && e < |marks|
    requires marks[call].stamp < marks[e].stamp
    ensures call < e
  {
  }

  lemma OrderRealTime(log: seq<Command>, h: seq<Event>, marks: seq<Mark>, order: seq<nat>)
    requires Explains(log, h, marks, order)
    ensures RealTime(h, order)
  {
    forall i, j, e | 0 <= i < j < |order| && Completes(h, e, order[j]) ensures order[i] < e {
      CompletedAt(log, h, marks, order, e, j);
      assert Made(log, h, marks, order, i);
      StampedLater(marks, |log|, order[i], e);
    }
  }

  lemma {:induction false} LatestPutIsState(log: seq<Command>, ops: seq<ApiCommand>, n: nat, k: string)
    requires n <= |log| == |ops| && forall i :: 0 <= i < |log| ==> ToKv(ops[i]) == log[i].kv
    ensures LatestPut(ops[..n], k) == Lookup(StateAt(log, n), k)
  {
    if n > 0 {
      LatestPutIsState(log, ops, n - 1, k);
      assert ops[..n][..n - 1] == ops[..n - 1];
      assert ToKv(ops[n - 1]) == log[n - 1].kv;
    }
  }

  /** The answer of entry `i` is what the sequential object says after the calls before it. */
  lemma EntryTold(log: seq<Command>, ops: seq<ApiCommand>, i: nat)
    requires i < |log| == |ops| && forall n :: 0 <= n < |log| ==> ToKv(ops[n]) == log[n].kv
    ensures TextOf(AnswerAt(log, i + 1)) == Expected(ops[..i], ops[i])
  {
    if ops[i].ApiGet? {
      LatestPutIsState(log, ops, i, ops[i].key);
    }
  }

  lemma OrderLegal(log: seq<Command>, h: seq<Event>, marks: seq<Mark>, order: seq<nat>)
    requires Explains(log, h, marks, order) && AllCalls(h, order)
    ensures Legal(h, order)
  {
    var ops := Ops(h, order);
    forall n | 0 <= n < |log| ensures ToKv(ops[n]) == log[n].kv {
      assert Made(log, h, marks, order, n);
    }
    forall i, e | 0 <= i < |order| && Completes(h, e, order[i])
      ensures h[e].reply.text == Expected(ops[..i], h[order[i]].op)
    {
      CompletedAt(log, h, marks, order, e, i);
      EntryTold(log, ops, i);
    }
  }

  lemma LogOrderLinearizes(s: State)
    requires Inv(s)
    ensures Linearization(s.history, CallOrder(s))
  {
    LogExplains(s);
    ExplainedIsLinearized(s.log, s.history, s.marks, CallOrder(s));
  }

  lemma ExplainedIsLinearized(log: seq<Command>, h: seq<Event>, marks: seq<Mark>, order: seq<nat>)
    requires Explains(log, h, marks, order)
    ensures Linearization(h, order)
  {
    forall i | 0 <= i < |order| ensures IsCall(h, order[i]) {
      assert Made(log, h, marks, order, i);
    }
    OrderComplete(log, h, marks, order);
    OrderRealTime(log, h, marks, order);
    OrderLegal(log, h, marks, order);
  }

  /**
   Linearizability. In every run, of any number of servers and any snapshot interval, with any
   interleaving, lost or late or repeated answers, crashes, failed saves, unreadable snapshots,
   lost connections and restarts, the history of calls is linearizable.
   */
  lemma EveryRunLinearizable(n: nat, interval: nat, moves: seq<Move>)
    ensures var h := Run(n, interval, moves).history; WellFormed(h) && Linearizable(h)
  {
    RunInv(n, interval, moves);
    LogOrderLinearizes(Run(n, interval, moves));
  }

  /**
   In every run, a Get made after a Put of its key had completed is answered with the value of that
   Put or of one that was not over when that Put was made.
   */
  lemma EveryGetIsRecent(n: nat, interval: nat, moves: seq<Move>, put: nat, e: nat, get: nat, f: nat) returns (q: nat)
    requires var h := Run(n, interval, moves).history;
             && IsCall(h, put) && h[put].op.ApiPut? && Completes(h, e, put)
             && IsCall(h, get) && h[get].op.ApiGet? && h[get].op.key == h[put].op.key && Completes(h, f, get)
             && e < get
    ensures var h := Run(n, interval, moves).history;
            RecentPut(h, q, h[put].op.key, h[f].reply.text, put, f)
  {
    EveryRunLinearizable(n, interval, moves);
    q := NoStaleRead(Run(n, interval, moves).history, put, e, get, f);
  }

  // ----- Calls that are made, and calls that fail -----

  /**
   A call made of a running client is on the wire under the next id if the connection took it, and
   is otherwise answered at once with a failure, after which the client knows the connection is lost.
   */
  lemma CallsAreMade(n: nat, interval: nat, moves: seq<Move>, c: nat, op: ApiCommand, accepted: bool, time: int)
    requires c < |Run(n, interval, moves).clients| && Run(n, interval, moves).clients[c].mode.Running?
    ensures var s, t := Run(n, interval, moves), Run(n, interval, moves + [Call(c, op, accepted, time)]);
            && |t.clients| == |s.clients|
            && (t.log, t.nodes, t.proposals) == (s.log, s.nodes, s.proposals)
            && if s.clients[c].connected && accepted then
                 && t.history == s.history + [Invoke(c, op)]
                 && t.requests == s.requests + {Request(c, s.clients[c].nextRequestId, ToKv(op))}
               else
                 && t.history == s.history + [Invoke(c, op), Respond(|s.history|, Error("Error: server disconnected"))]
                 && t.requests == s.requests
                 && !t.clients[c].connected
  {
    assert (moves + [Call(c, op, accepted, time)])[..|moves|] == moves;
  }

  /** Failing a pending request, the puts first, tells the caller it was made for, and nobody else. */
  lemma FailedCallsAreTold(n: nat, interval: nat, moves: seq<Move>, c: nat, id: nat)
    requires c < |Run(n, interval, moves).clients| && Run(n, interval, moves).clients[c].mode.Recovering?
    requires var client := Run(n, interval, moves).clients[c];
             id in client.pendingPuts || (client.pendingPuts == map[] && id in client.pendingGets)
    ensures var s := Run(n, interval, moves);
            var failing := if id in s.clients[c].pendingPuts then FailPut(id) else FailGet(id);
            var t := Run(n, interval, moves + [ClientStep(c, failing)]);
            && id < |s.clients[c].issued| && |t.clients| == |s.clients|
            && t.history == s.history + [Respond(s.clients[c].issued[id].caller, Error("Error: connection lost"))]
            && !Pending(t.clients[c], id)
            && (t.log, t.nodes, t.proposals, t.requests) == (s.log, s.nodes, s.proposals, s.requests)
  {
    RunInv(n, interval, moves);
    var s := Run(n, interval, moves);
    assert ClientOk(s.clients[c], s.history);
    PendingDisjoint(s.clients[c]);
    var failing := if id in s.clients[c].pendingPuts then FailPut(id) else FailGet(id);
    FailEffect(s.clients[c], failing);
    ActsQuietly(s, c, failing, 0);
    assert (moves + [ClientStep(c, failing)])[..|moves|] == moves;
  }

  // ----- Growing runs -----

  /** What no move takes back. */
  predicate Grows(s: State, t: State) {
    && s.log <= t.log
    && s.history <= t.history
    && |s.clients| == |t.clients|
    && forall c :: 0 <= c < |s.clients| ==> s.clients[c].issued <= t.clients[c].issued
  }

  lemma DoGrows(interval: nat, s: State, m: Move)
    ensures Grows(s, Do(interval, s, m))
  {
  }

  lemma GrowsTransitive(s: State, t: State, u: State)
    requires Grows(s, t) && Grows(t, u)
    ensures Grows(s, u)
  {
    forall c | 0 <= c < |s.clients| ensures s.clients[c].issued <= u.clients[c].issued {
      assert s.clients[c].issued <= t.clients[c].issued <= u.clients[c].issued;
    }
  }

  lemma RunGrowsOnce(n: nat, interval: nat, moves: seq<Move>, last: Move)
    ensures Grows(Run(n, interval, moves), Run(n, interval, moves + [last]))
  {
    assert (moves + [last])[..|moves|] == moves;
    DoGrows(interval, Run(n, interval, moves), last);
  }

  lemma {:induction false} RunGrows(n: nat, interval: nat, moves: seq<Move>, more: seq<Move>)
    ensures Grows(Run(n, interval, moves), Run(n, interval, moves + more))
    decreases more
  {
    if more == [] {
      assert moves + more == moves;
    } else {
      var init, last := more[..|more| - 1], more[|more| - 1];
      RunGrows(n, interval, moves, init);
      RunGrowsOnce(n, interval, moves + init, last);
      assert moves + init + [last] == moves + more;
      GrowsTransitive(Run(n, interval, moves), Run(n, interval, moves + init), Run(n, interval, moves + more));
    }
  }

  /**
   The order found for a run is never revised: continuing the run only adds calls at its end.
   */
  lemma LinearizationOnlyExtends(n: nat, interval: nat, moves: seq<Move>, more: seq<Move>)
    ensures var s, t := Run(n, interval, moves), Run(n, interval, moves + more);
            && CallOrder(s) <= CallOrder(t)
            && Linearization(s.history, CallOrder(s))
            && Linearization(t.history, CallOrder(t))
  {
    var s, t := Run(n, interval, moves), Run(n, interval, moves + more);
    RunInv(n, interval, moves);
    RunInv(n, interval, moves + more);
    LogOrderLinearizes(s);
    LogOrderLinearizes(t);
    RunGrows(n, interval, moves, more);
    OrderGrows(s, t);
  }

  lemma OrderGrows(s: State, t: State)
    requires Inv(s) && Grows(s, t)
    ensures CallOrder(s) <= CallOrder(t)
  {
    forall i | 0 <= i < |s.log| ensures CallOrder(t)[i] == CallOrder(s)[i] {
      var cmd := s.log[i];
      assert InBook(BookOf(s.clients), cmd.coordinatorId, cmd.id, cmd.kv);
      assert s.clients[cmd.coordinatorId].issued <= t.clients[cmd.coordinatorId].issued;
    }
  }

  // ----- Acknowledgements and replicas -----

  /** Any two servers hold folds of one log; the one further on holds the other's map with the entries between applied. */
  lemma ReplicasAgree(n: nat, interval: nat, moves: seq<Move>, i: nat, j: nat)
    requires i < |Run(n, interval, moves).nodes| && j < |Run(n, interval, moves).nodes|
    ensures var s := Run(n, interval, moves);
            var a, b := s.nodes[i], s.nodes[j];
            a.up && b.up && Replica.Applied(a) <= Replica.Applied(b) ==>
              && Replica.Applied(b) <= |s.log|
              && b.db == ApplyAll(a.db, Kvs(s.log)[Replica.Applied(a)..Replica.Applied(b)])
  {
    RunInv(n, interval, moves);
    var s := Run(n, interval, moves);
    assert Replica.NodeInv(i, s.log, s.nodes[i]) && Replica.NodeInv(j, s.log, s.nodes[j]);
    var a, b := s.nodes[i], s.nodes[j];
    if a.up && b.up && Replica.Applied(a) <= Replica.Applied(b) {
      StateAtFrom(s.log, Replica.Applied(a), Replica.Applied(b));
    }
  }

  lemma {:induction false} StateAtFrom(log: seq<Command>, a: nat, b: nat)
    requires a <= b <= |log|
    ensures StateAt(log, b) == ApplyAll(StateAt(log, a), Kvs(log)[a..b])
  {
    if a < b {
      StateAtFrom(log, a, b - 1);
      assert Kvs(log)[a..b][..b - 1 - a] == Kvs(log)[a..b - 1];
    }
  }

  /**
   Durability. An acknowledged Put has a log position `p`, decided before it was acknowledged and
   its own for good: at any later time every running server that has applied that far holds
   its value, unless the log writes the key again in between, whatever crashed meanwhile.
   */
  lemma AcknowledgedPutIsDurable(n: nat, interval: nat, moves: seq<Move>, e: nat, call: nat) returns (p: nat)
    requires var h := Run(n, interval, moves).history;
             IsCall(h, call) && h[call].op.ApiPut? && Completes(h, e, call)
    ensures e < |Run(n, interval, moves).marks|
    ensures 1 <= p <= Run(n, interval, moves).marks[e].stamp <= |Run(n, interval, moves).log|
    ensures forall more: seq<Move> ::
              var op, t := Run(n, interval, moves).history[call].op, Run(n, interval, moves + more);
              && p <= |t.log|
              && (forall i :: 0 <= i < |t.log| ==> (CallOrder(t)[i] == call <==> i == p - 1))
              && t.log[p - 1].kv == Put(op.key, op.value)
              && forall i :: 0 <= i < |t.nodes| ==> HoldsPut(t.log, t.nodes[i], p, op.key, op.value)
  {
    RunExplains(n, interval, moves);
    p := PutDecidedAt(Run(n, interval, moves), e, call);
    var op := Run(n, interval, moves).history[call].op;
    forall more: seq<Move>
      ensures var t := Run(n, interval, moves + more);
              && p <= |t.log|
              && (forall i :: 0 <= i < |t.log| ==> (CallOrder(t)[i] == call <==> i == p - 1))
              && t.log[p - 1].kv == Put(op.key, op.value)
              && forall i :: 0 <= i < |t.nodes| ==> HoldsPut(t.log, t.nodes[i], p, op.key, op.value)
    {
      RunGrows(n, interval, moves, more);
      EntryForGood(n, interval, moves, more, p, call);
      PutHeldEverywhere(n, interval, moves + more, p, op.key, op.value);
    }
  }

  /** The entry of a call stays the only one that is its. */
  lemma EntryForGood(n: nat, interval: nat, moves: seq<Move>, more: seq<Move>, p: nat, call: nat)
    requires 1 <= p <= |Run(n, interval, moves).log| && CallOrder(Run(n, interval, moves))[p - 1] == call
    ensures var t := Run(n, interval, moves + more);
            p <= |t.log| && forall i :: 0 <= i < |t.log| ==> (CallOrder(t)[i] == call <==> i == p - 1)
  {
    var s, t := Run(n, interval, moves), Run(n, interval, moves + more);
    LinearizationOnlyExtends(n, interval, moves, more);
    forall i | 0 <= i < |t.log| && CallOrder(t)[i] == call ensures i == p - 1 {
      OnceAt(CallOrder(t), i, p - 1);
    }
  }

  lemma RunExplains(n: nat, interval: nat, moves: seq<Move>)
    ensures var s := Run(n, interval, moves); Explains(s.log, s.history, s.marks, CallOrder(s))
  {
    RunInv(n, interval, moves);
    LogExplains(Run(n, interval, moves));
  }

  lemma PutDecidedAt(s: State, e: nat, call: nat) returns (p: nat)
    requires Explains(s.log, s.history, s.marks, CallOrder(s))
    requires IsCall(s.history, call) && s.history[call].op.ApiPut? && Completes(s.history, e, call)
    ensures e < |s.marks| && 1 <= p <= s.marks[e].stamp <= |s.log|
    ensures CallOrder(s)[p - 1] == call
    ensures s.log[p - 1].kv == Put(s.history[call].op.key, s.history[call].op.value)
  {
    assert Given(s.log, s.history, s.marks, CallOrder(s), e);
    p := s.marks[e].place;
    assert Made(s.log, s.history, s.marks, CallOrder(s), p - 1);
  }

  lemma PutHeldEverywhere(n: nat, interval: nat, moves: seq<Move>, p: nat, k: string, value: string)
    requires 1 <= p <= |Run(n, interval, moves).log| && Run(n, interval, moves).log[p - 1].kv == Put(k, value)
    ensures var t := Run(n, interval, moves);
            forall i :: 0 <= i < |t.nodes| ==> HoldsPut(t.log, t.nodes[i], p, k, value)
  {
    RunInv(n, interval, moves);
    var t := Run(n, interval, moves);
    forall i | 0 <= i < |t.nodes| ensures HoldsPut(t.log, t.nodes[i], p, k, value) {
      assert Replica.NodeInv(i, t.log, t.nodes[i]);
      PutHeld(i, t.log, t.nodes[i], p, k, value);
    }
  }

  /** If the server has applied `p` and nothing it applied since writes the key, it holds the value. */
  predicate HoldsPut(log: seq<Command>, v: Replica.Node, p: nat, k: string, value: string) {
    && (v.up ==> Replica.Applied(v) <= |log|)
    && (v.up && p <= Replica.Applied(v) && (forall q :: p <= q < Replica.Applied(v) ==> !Writes(log[q].kv, k)) ==>
          Lookup(v.db, k) == Some(value))
  }

  lemma PutHeld(me: nat, log: seq<Command>, v: Replica.Node, p: nat, k: string, value: string)
    requires Replica.NodeInv(me, log, v) && 1 <= p <= |log| && log[p - 1].kv == Put(k, value)
    ensures HoldsPut(log, v, p, k, value)
  {
    if v.up && p <= Replica.Applied(v) && (forall q :: p <= q < Replica.Applied(v) ==> !Writes(log[q].kv, k)) {
      StateAtAfterWrite(log, p, Replica.Applied(v), k);
    }
  }

  // ----- Request ids -----

  /**
   A request id that may have left its client is never handed out again: every id on the wire,
   proposed, decided, or named in an answer is below the next one, so the unchecked table
   access in `new_response` stays in range and no client ever panics.
   */
  lemma IdsAreNeverReused(n: nat, interval: nat, moves: seq<Move>)
    ensures var s := Run(n, interval, moves);
            && |s.nodes| == |s.clients|
            && (forall r :: r in s.requests ==> r.client < |s.clients| && r.id < s.clients[r.client].nextRequestId)
            && (forall p :: p in s.proposals ==> p.coordinatorId < |s.clients| && p.id < s.clients[p.coordinatorId].nextRequestId)
            && (forall i :: 0 <= i < |s.log| ==>
                  s.log[i].coordinatorId < |s.clients| && s.log[i].id < s.clients[s.log[i].coordinatorId].nextRequestId)
            && (forall c, j :: 0 <= c < |s.clients| && 0 <= j < |s.nodes[c].answers| ==>
                  !s.nodes[c].answers[j].msg.StartSignal? && s.nodes[c].answers[j].msg.id < |s.clients[c].requestData|)
            && (forall c :: 0 <= c < |s.clients| ==>
                  && TableInv(s.clients[c])
                  && s.clients[c].pendingPuts.Keys !! s.clients[c].pendingGets.Keys
                  && !s.clients[c].mode.Panicked?)
  {
    RunInv(n, interval, moves);
    var s := Run(n, interval, moves);
    forall c | 0 <= c < |s.clients| ensures ClientOk(s.clients[c], s.history) {
    }
    forall r | r in s.requests ensures InBook(BookOf(s.clients), r.client, r.id, r.kv) {
    }
    forall p | p in s.proposals ensures InBook(BookOf(s.clients), p.coordinatorId, p.id, p.kv) {
    }
    forall i | 0 <= i < |s.log| ensures InBook(BookOf(s.clients), s.log[i].coordinatorId, s.log[i].id, s.log[i].kv) {
    }
    forall c, j | 0 <= c < |s.clients| && 0 <= j < |s.nodes[c].answers|
      ensures !s.nodes[c].answers[j].msg.StartSignal? && s.nodes[c].answers[j].msg.id < |s.clients[c].requestData| {
      SentAnswer(s.log, s.nodes, BookOf(s.clients), c, j);
    }
    forall c | 0 <= c < |s.clients| ensures s.clients[c].pendingPuts.Keys !! s.clients[c].pendingGets.Keys {
      PendingDisjoint(s.clients[c]);
    }
  }

  /** Over every run, a client's pending maps hold exactly those of its requests whose callers have had no reply. */
  lemma PendingIsUnanswered(n: nat, interval: nat, moves: seq<Move>, c: nat, id: nat)
    requires c < |Run(n, interval, moves).clients| && id < |Run(n, interval, moves).clients[c].issued|
    ensures var s := Run(n, interval, moves);
            var issue := s.clients[c].issued[id];
            && IsCall(s.history, issue.caller) && s.history[issue.caller] == Invoke(c, issue.op)
            && (Unanswered(s.history, issue.caller) <==>
                (if issue.op.ApiPut? then id in s.clients[c].pendingPuts else id in s.clients[c].pendingGets))
  {
    RunInv(n, interval, moves);
    var s := Run(n, interval, moves);
    assert ClientOk(s.clients[c], s.history);
    assert Pending(s.clients[c], id) <==> Unanswered(s.history, s.clients[c].issued[id].caller);
    assert BookOf(s.clients)[c] == s.clients[c].issued;
  }

  /** The history once answer `j` of server `c` has reached its client. */
  function HistoryWith(s: State, c: nat, j: nat): seq<Event>
    requires c < |s.clients| && c < |s.nodes| && j < |s.nodes[c].answers|
    requires 1 <= s.nodes[c].answers[j].pos <= |s.log|
  {
    var pos := s.nodes[c].answers[j].pos;
    var call := CallOrder(s)[pos - 1];
    if s.clients[c].mode.Running? && Unanswered(s.history, call)
    then s.history + [Respond(call, Answer(TextOf(AnswerAt(s.log, pos))))]
    else s.history
  }

  lemma ReceivedHistory(s: State, c: nat, msg: ServerMessage, time: int, place: nat)
    requires c < |s.clients| && ClientOk(s.clients[c], s.history)
    requires !msg.StartSignal? && msg.id < |s.clients[c].issued|
    requires msg.Write? <==> s.clients[c].issued[msg.id].op.ApiPut?
    ensures var call := s.clients[c].issued[msg.id].caller;
            ClientActs(s, c, Receive(msg, time), place).history ==
            if s.clients[c].mode.Running? && Unanswered(s.history, call)
            then s.history + [Respond(call, Answer(TextOf(msg)))] else s.history
  {
    ReceiveEffect(s.clients[c], msg, time);
    ActsQuietly(s, c, Receive(msg, time), place);
    assert Pending(s.clients[c], msg.id) <==> Unanswered(s.history, s.clients[c].issued[msg.id].caller);
  }

  /** `sent` is the answer of a logged request of client `c`. */
  predicate Owned(s: State, c: nat, sent: Replica.Sent)
    requires c < |s.clients|
  {
    var issued := s.clients[c].issued;
    && 1 <= sent.pos <= |s.log|
    && sent.msg == AnswerAt(s.log, sent.pos)
    && !sent.msg.StartSignal? && sent.msg.id < |issued|
    && CallOf(BookOf(s.clients), s.log[sent.pos - 1]) == issued[sent.msg.id].caller
    && (sent.msg.Write? <==> issued[sent.msg.id].op.ApiPut?)
  }

  lemma InvOwned(s: State, c: nat, j: nat)
    requires Inv(s) && c < |s.clients| && j < |s.nodes[c].answers|
    ensures ClientOk(s.clients[c], s.history) && Owned(s, c, s.nodes[c].answers[j])
  {
    SentAnswer(s.log, s.nodes, BookOf(s.clients), c, j);
  }

  lemma RunOwned(n: nat, interval: nat, moves: seq<Move>, c: nat, j: nat)
    requires c < |Run(n, interval, moves).clients| && c < |Run(n, interval, moves).nodes|
    requires j < |Run(n, interval, moves).nodes[c].answers|
    ensures var s := Run(n, interval, moves);
            ClientOk(s.clients[c], s.history) && Owned(s, c, s.nodes[c].answers[j])
  {
    RunInv(n, interval, moves);
    InvOwned(Run(n, interval, moves), c, j);
  }

  lemma AnsweredHistory(interval: nat, s: State, c: nat, j: nat, time: int)
    requires c < |s.clients| && c < |s.nodes| && j < |s.nodes[c].answers|
    requires ClientOk(s.clients[c], s.history) && Owned(s, c, s.nodes[c].answers[j])
    ensures Do(interval, s, Answered(c, j, time)).history == HistoryWith(s, c, j)
  {
    ReceivedHistory(s, c, s.nodes[c].answers[j].msg, time, s.nodes[c].answers[j].pos);
  }

  /**
   Late and repeated answers are harmless. Whatever answer a server ever sent its client, and
   whenever it arrives, it completes exactly the call whose log entry it answers, with the
   answer of that entry, and does so just when the client is listening and that call has had
   no reply yet; otherwise no caller is told anything.
   */
  lemma LateAnswersHarmless(n: nat, interval: nat, moves: seq<Move>, c: nat, j: nat, time: int)
    requires c < |Run(n, interval, moves).clients| && c < |Run(n, interval, moves).nodes|
    requires j < |Run(n, interval, moves).nodes[c].answers|
    ensures var s := Run(n, interval, moves);
            && 1 <= s.nodes[c].answers[j].pos <= |s.log|
            && Run(n, interval, moves + [Answered(c, j, time)]).history == HistoryWith(s, c, j)
  {
    RunOwned(n, interval, moves, c, j);
    AnsweredHistory(interval, Run(n, interval, moves), c, j, time);
    assert (moves + [Answered(c, j, time)])[..|moves|] == moves;
  }

  /** A call refused with "server disconnected" is never executed, in any continuation. */
  lemma RefusedNeverExecuted(n: nat, interval: nat, moves: seq<Move>, e: nat, more: seq<Move>)
    requires var h := Run(n, interval, moves).history; e < |h| && h[e].Respond? && h[e].reply == NOT_SENT
    ensures Run(n, interval, moves).history[e].call !in CallOrder(Run(n, interval, moves + more))
  {
    RunGrows(n, interval, moves, more);
    RunInv(n, interval, moves + more);
    var s, t := Run(n, interval, moves), Run(n, interval, moves + more);
    assert t.history[e] == s.history[e];
    var call := t.history[e].call;
    forall i | 0 <= i < |t.log| ensures CallOrder(t)[i] != call {
      var cmd := t.log[i];
      assert InBook(BookOf(t.clients), cmd.coordinatorId, cmd.id, cmd.kv);
    }
  }

  lemma LogsNoDelete(book: Book, log: seq<Command>)
    requires LogOk(book, log)
    ensures forall i :: 0 <= i < |log| ==> !log[i].kv.Delete?
  {
    forall i | 0 <= i < |log| ensures !log[i].kv.Delete? {
      assert InBook(book, log[i].coordinatorId, log[i].id, log[i].kv);
    }
  }

  lemma RunLogsNoDelete(n: nat, interval: nat, moves: seq<Move>)
    ensures var log := Run(n, interval, moves).log; forall i :: 0 <= i < |log| ==> !log[i].kv.Delete?
  {
    RunInv(n, interval, moves);
    var s := Run(n, interval, moves);
    LogsNoDelete(BookOf(s.clients), s.log);
  }

  /** The system's own logs hold no Delete, so cutting and compacting them any way is exact. */
  lemma OwnLogsCompactExactly(n: nat, interval: nat, moves: seq<Move>, chunks: seq<seq<KVCommand>>)
    requires Compaction.Flatten(chunks) == Kvs(Run(n, interval, moves).log)
    ensures var s := Run(n, interval, moves);
            Compaction.CompactAll(chunks) == StateAt(s.log, |s.log|)
  {
    var s := Run(n, interval, moves);
    RunLogsNoDelete(n, interval, moves);
    FlattenDeleteFree(chunks);
    Compaction.DeleteFreeCompaction(chunks);
    StateAtIsFold(s.log, |s.log|);
    assert Kvs(s.log)[..|s.log|] == Kvs(s.log);
  }

  lemma {:induction false} FlattenDeleteFree(chunks: seq<seq<KVCommand>>)
    requires forall i :: 0 <= i < |Compaction.Flatten(chunks)| ==> !Compaction.Flatten(chunks)[i].Delete?
    ensures forall c, i :: 0 <= c < |chunks| && 0 <= i < |chunks[c]| ==> !chunks[c][i].Delete?
  {
    if chunks != [] {
      var init, last := chunks[..|chunks| - 1], chunks[|chunks| - 1];
      var all := Compaction.Flatten(chunks);
      assert all == Compaction.Flatten(init) + last;
      forall i | 0 <= i < |Compaction.Flatten(init)| ensures !Compaction.Flatten(init)[i].Delete? {
        assert all[i] == Compaction.Flatten(init)[i];
      }
      forall i | 0 <= i < |last| ensures !last[i].Delete? {
        assert all[|Compaction.Flatten(init)| + i] == last[i];
      }
      FlattenDeleteFree(init);
    }
  }
}
