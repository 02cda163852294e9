/**
 Histories of calls on the whole system and what it means for one to be linearizable. Nothing
 here knows about logs or servers: the sequential object is a map in which a Get returns the
 value of the latest Put before it.
 */
module History {
  import opened Wrappers
  import opened ClientModel

  /** A call is named by the position of its Invoke in the history. */
  datatype Event = Invoke(client: nat, op: ApiCommand) | Respond(call: nat, reply: Reply)

  /** The value of the latest Put of `k` among `ops`, executed in this order. */
  function LatestPut(ops: seq<ApiCommand>, k: string): Option<string> {
    if ops == [] then None
    else
      var last := ops[|ops| - 1];
      if last.ApiPut? && last.key == k then Some(last.value) else LatestPut(ops[..|ops| - 1], k)
  }

  /** What the sequential object tells `op` when exactly `before` was executed ahead of it. */
  function Expected(before: seq<ApiCommand>, op: ApiCommand): string {
    match op
    case ApiPut(_, _) => "Ok"
    case ApiGet(k) => var latest := LatestPut(before, k); if latest.Some? then latest.value else "Key not found"
  }

  predicate IsCall(h: seq<Event>, call: nat) {
    call < |h| && h[call].Invoke?
  }

  /** Event `e` completes `call`: the caller is told the outcome, not that the outcome is unknown. */
  predicate Completes(h: seq<Event>, e: int, call: nat) {
    0 <= e < |h| && h[e].Respond? && h[e].call == call && h[e].reply.Answer?
  }

  predicate AllCalls(h: seq<Event>, order: seq<nat>) {
    forall i :: 0 <= i < |order| ==> IsCall(h, order[i])
  }

  predicate Once(order: seq<nat>) {
    forall i, j :: 0 <= i < j < |order| ==> order[i] != order[j]
  }

  lemma OnceAt(order: seq<nat>, i: nat, j: nat)
    requires Once(order) && i < |order| && j < |order| && order[i] == order[j]
    ensures i == j
  {
  }

  function Ops(h: seq<Event>, order: seq<nat>): seq<ApiCommand>
    requires AllCalls(h, order)
  {
    seq(|order|, i requires 0 <= i < |order| => h[order[i]].op)
  }

  predicate Complete(h: seq<Event>, order: seq<nat>) {
    forall e :: 0 <= e < |h| && h[e].Respond? && h[e].reply.Answer? ==> h[e].call in order
  }

  /** No call is put before one that had completed when it was made. */
  ghost predicate RealTime(h: seq<Event>, order: seq<nat>) {
    forall i, j, e :: 0 <= i < j < |order| && Completes(h, e, order[j]) ==> order[i] < e
  }

  ghost predicate Legal(h: seq<Event>, order: seq<nat>)
    requires AllCalls(h, order)
  {
    forall i, e :: 0 <= i < |order| && Completes(h, e, order[i]) ==>
                     h[e].reply.text == Expected(Ops(h, order)[..i], h[order[i]].op)
  }

  /**
   A total order of some of the calls, every completed one among them, that respects real time
   and in which every completed call was told what the sequential object would have told it.
   */
  ghost predicate Linearization(h: seq<Event>, order: seq<nat>) {
    && AllCalls(h, order)
    && Once(order)
    && Complete(h, order)
    && RealTime(h, order)
    && Legal(h, order)
  }

  ghost predicate Linearizable(h: seq<Event>) {
    exists order :: Linearization(h, order)
  }

  /** Replies answer earlier calls, each at most once. */
  predicate WellFormed(h: seq<Event>) {
    && (forall e :: 0 <= e < |h| && h[e].Respond? ==> h[e].call < e && h[h[e].call].Invoke?)
    && (forall e, f :: 0 <= e < f < |h| && h[e].Respond? && h[f].Respond? ==> h[e].call != h[f].call)
  }

  // ----- The definition at work -----

  lemma {:induction false} LatestPutAt(ops: seq<ApiCommand>, k: string, i: nat) returns (m: nat)
    requires i < |ops| && ops[i].ApiPut? && ops[i].key == k
    ensures i <= m < |ops| && ops[m].ApiPut? && ops[m].key == k
    ensures LatestPut(ops, k) == Some(ops[m].value)
  {
    m := |ops| - 1;
    if !(ops[m].ApiPut? && ops[m].key == k) {
      m := LatestPutAt(ops[..m], k, i);
    }
  }

  /** Call `q` put `text` at `k`: before event `f`, and not so early that it had completed when `put` was made. */
  predicate RecentPut(h: seq<Event>, q: nat, k: string, text: string, put: nat, f: nat) {
    && IsCall(h, q) && h[q].op == ApiPut(k, text)
    && q < f
    && (q != put ==> forall e :: 0 <= e < |h| && Completes(h, e, q) ==> put < e)
  }

  /**
   In a linearizable history no Get misses a Put: if Put `put` of its key had completed (event `e`)
   before the Get was made, its answer (event `f`) is the value of that Put or of one that was
   not over when that Put was made.
   */
  lemma NoStaleRead(h: seq<Event>, put: nat, e: nat, get: nat, f: nat) returns (q: nat)
    requires Linearizable(h)
    requires IsCall(h, put) && h[put].op.ApiPut? && Completes(h, e, put)
    requires IsCall(h, get) && h[get].op.ApiGet? && h[get].op.key == h[put].op.key && Completes(h, f, get)
    requires e < get
    ensures RecentPut(h, q, h[put].op.key, h[f].reply.text, put, f)
  {
    var order :| Linearization(h, order);
    assert h[e].call in order && h[f].call in order;
    var i :| 0 <= i < |order| && order[i] == put;
    var j :| 0 <= j < |order| && order[j] == get;
    assert i < j by {
      assert Completes(h, e, order[i]);
    }
    var before := Ops(h, order)[..j];
    var m := LatestPutAt(before, h[put].op.key, i);
    q := order[m];
    assert Completes(h, f, order[j]);
  }

  /** A Put that completed before a Get was made, and a Get that missed it. */
  function StaleRead(k: string, value: string): seq<Event> {
    [Invoke(0, ApiPut(k, value)), Respond(0, Answer("Ok")), Invoke(1, ApiGet(k)), Respond(2, Answer("Key not found"))]
  }

  lemma StaleReadInOrder(h: seq<Event>, k: string, value: string, order: seq<nat>)
    requires h == StaleRead(k, value) && value == "Key not found" && order == [0, 2]
    ensures Linearization(h, order)
  {
    var put := ApiPut(k, value);
    assert [put][..0] == [];
    assert AllCalls(h, order);
    assert Ops(h, order)[..0] == [] && Ops(h, order)[..1] == [put];
    assert LatestPut([put], k) == Some(value);
    assert Complete(h, order) by {
      assert order[0] == 0 && order[1] == 2;
    }
  }

  lemma OnlyTwo(order: seq<nat>, i: nat, j: nat)
    requires Once(order) && i < j < |order|
    requires forall m :: 0 <= m < |order| ==> order[m] == order[i] || order[m] == order[j]
    ensures i == 0 && j == 1
  {
    var first, second := order[0], order[1];
  }

  lemma StaleReadOrder(h: seq<Event>, k: string, value: string, order: seq<nat>)
    requires h == StaleRead(k, value) && Linearization(h, order)
    ensures value == "Key not found"
  {
    assert Completes(h, 1, 0) && Completes(h, 3, 2);
    assert h[1].call in order && h[3].call in order;
    var i :| 0 <= i < |order| && order[i] == 0;
    var j :| 0 <= j < |order| && order[j] == 2;
    forall m | 0 <= m < |order| ensures order[m] == 0 || order[m] == 2 {
      assert IsCall(h, order[m]);
    }
    assert i < j by {
      assert Completes(h, 1, order[i]);
    }
    OnlyTwo(order, i, j);
    assert Ops(h, order)[..1] == [ApiPut(k, value)] && [ApiPut(k, value)][..0] == [];
    assert Completes(h, 3, order[1]);
  }

  /** Missing a completed Put is never linearizable, unless the value reads like the text for "absent". */
  lemma StaleReadLinearizableIff(k: string, value: string)
    ensures Linearizable(StaleRead(k, value)) <==> value == "Key not found"
  {
    var h := StaleRead(k, value);
    if Linearizable(h) {
      var order :| Linearization(h, order);
      StaleReadOrder(h, k, value, order);
    }
    if value == "Key not found" {
      StaleReadInOrder(h, k, value, [0, 2]);
    }
  }
}
