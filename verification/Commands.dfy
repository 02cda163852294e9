/**
 The commands of the replicated key-value store, the messages that carry them,
 and what a log of commands means: the map and the answers it determines.
 */
module Commands {
  import opened Wrappers

  type CommandId = nat
  type ClientId = nat
  type NodeId = nat
  type Table = map<string, string>

  datatype KVCommand = Put(key: string, value: string) | Delete(key: string) | Get(key: string)

  datatype Command = Command(clientId: ClientId, coordinatorId: NodeId, id: CommandId, kv: KVCommand)

  datatype ServerMessage =
    | Write(id: CommandId)
    | Read(id: CommandId, value: Option<string>)
    | StartSignal(time: int)

  function Lookup(db: Table, k: string): Option<string> {
    if k in db then Some(db[k]) else None
  }

  /** The map after one command. */
  function Apply(db: Table, cmd: KVCommand): Table {
    match cmd
    case Put(k, v) => db[k := v]
    case Delete(k) => db - {k}
    case Get(_) => db
  }

  /** What a command reads: only a Get reads anything, and it reads the map before it. */
  function ReadBy(db: Table, cmd: KVCommand): Option<Option<string>> {
    match cmd
    case Get(k) => Some(Lookup(db, k))
    case _ => None
  }

  function ApplyAll(db: Table, cmds: seq<KVCommand>): Table {
    if cmds == [] then db else Apply(ApplyAll(db, cmds[..|cmds| - 1]), cmds[|cmds| - 1])
  }

  function Kvs(log: seq<Command>): (kvs: seq<KVCommand>)
    ensures |kvs| == |log|
    ensures forall i :: 0 <= i < |log| ==> kvs[i] == log[i].kv
  {
    seq(|log|, i requires 0 <= i < |log| => log[i].kv)
  }

  /** The map determined by the first `n` entries of the log. */
  function StateAt(log: seq<Command>, n: nat): Table
    requires n <= |log|
  {
    if n == 0 then map[] else Apply(StateAt(log, n - 1), log[n - 1].kv)
  }

  /** The one answer log position `p` (counted from 1) can have. */
  function AnswerAt(log: seq<Command>, p: nat): ServerMessage
    requires 1 <= p <= |log|
  {
    var c := log[p - 1];
    match ReadBy(StateAt(log, p - 1), c.kv)
    case Some(value) => Read(c.id, value)
    case None => Write(c.id)
  }

  // ----- Last writer wins -----

  predicate Writes(cmd: KVCommand, k: string) {
    !cmd.Get? && cmd.key == k
  }

  function Written(cmd: KVCommand): Option<string> {
    if cmd.Put? then Some(cmd.value) else None
  }

  /** The value `cmds` leave at `k`, given the value that was there: that of the last write of `k`. */
  function LastWrite(before: Option<string>, cmds: seq<KVCommand>, k: string): Option<string> {
    if cmds == [] then before
    else
      var last := cmds[|cmds| - 1];
      if Writes(last, k) then Written(last) else LastWrite(before, cmds[..|cmds| - 1], k)
  }

  lemma {:induction false} ApplyAllLookup(db: Table, cmds: seq<KVCommand>, k: string)
    ensures Lookup(ApplyAll(db, cmds), k) == LastWrite(Lookup(db, k), cmds, k)
  {
    if cmds != [] {
      ApplyAllLookup(db, cmds[..|cmds| - 1], k);
    }
  }

  lemma {:induction false} LastWriteAppend(before: Option<string>, a: seq<KVCommand>, b: seq<KVCommand>, k: string)
    ensures LastWrite(before, a + b, k) == LastWrite(LastWrite(before, a, k), b, k)
  {
    if b == [] {
      assert a + b == a;
    } else {
      assert (a + b)[..|a + b| - 1] == a + b[..|b| - 1];
      LastWriteAppend(before, a, b[..|b| - 1], k);
    }
  }

  /** Writing the same commands a second time changes nothing. */
  lemma {:induction false} LastWriteAgain(before: Option<string>, cmds: seq<KVCommand>, k: string)
    ensures LastWrite(LastWrite(before, cmds, k), cmds, k) == LastWrite(before, cmds, k)
  {
    LastWriteUnlessSilent(before, LastWrite(before, cmds, k), cmds, k);
  }

  lemma {:induction false} LastWriteUnlessSilent(b0: Option<string>, b1: Option<string>, cmds: seq<KVCommand>, k: string)
    ensures LastWrite(b1, cmds, k) == if exists i :: 0 <= i < |cmds| && Writes(cmds[i], k) then LastWrite(b0, cmds, k) else b1
  {
    if cmds != [] {
      var init, last := cmds[..|cmds| - 1], cmds[|cmds| - 1];
      LastWriteUnlessSilent(b0, b1, init, k);
      if !Writes(last, k) {
        assert (exists i :: 0 <= i < |cmds| && Writes(cmds[i], k)) <==> (exists i :: 0 <= i < |init| && Writes(init[i], k));
      }
    }
  }

  lemma TablesEqual(a: Table, b: Table)
    requires forall k :: Lookup(a, k) == Lookup(b, k)
    ensures a == b
  {
    forall k ensures (k in a <==> k in b) && (k in a ==> a[k] == b[k]) {
      assert Lookup(a, k) == Lookup(b, k);
    }
    assert a.Keys == b.Keys;
  }

  /**
   Overlapping replay converges: replaying `log[i..j]` on a map that already holds `log[..p]`,
   for any `p` inside the replayed range, gives the map of `log[..j]`.
   */
  lemma ReplayConverges(log: seq<KVCommand>, i: nat, p: nat, j: nat)
    requires i <= p <= j <= |log|
    ensures ApplyAll(ApplyAll(map[], log[..p]), log[i..j]) == ApplyAll(map[], log[..j])
  {
    var held := ApplyAll(map[], log[..p]);
    forall k ensures Lookup(ApplyAll(held, log[i..j]), k) == Lookup(ApplyAll(map[], log[..j]), k) {
      ReplayConvergesAt(log, i, p, j, k);
      ApplyAllLookup(map[], log[..p], k);
      ApplyAllLookup(held, log[i..j], k);
      ApplyAllLookup(map[], log[..j], k);
    }
    TablesEqual(ApplyAll(held, log[i..j]), ApplyAll(map[], log[..j]));
  }

  lemma ReplayConvergesAt(log: seq<KVCommand>, i: nat, p: nat, j: nat, k: string)
    requires i <= p <= j <= |log|
    ensures LastWrite(LastWrite(None, log[..p], k), log[i..j], k) == LastWrite(None, log[..j], k)
  {
    var start := LastWrite(None, log[..i], k);
    assert log[..p] == log[..i] + log[i..p];
    assert log[i..j] == log[i..p] + log[p..j];
    assert log[..j] == log[..p] + log[p..j];
    LastWriteAppend(None, log[..i], log[i..p], k);
    LastWriteAppend(LastWrite(None, log[..p], k), log[i..p], log[p..j], k);
    LastWriteAgain(start, log[i..p], k);
    LastWriteAppend(None, log[..p], log[p..j], k);
  }

  // ----- StateAt over growing logs -----

  lemma {:induction false} StateAtIsFold(log: seq<Command>, n: nat)
    requires n <= |log|
    ensures StateAt(log, n) == ApplyAll(map[], Kvs(log)[..n])
  {
    if n > 0 {
      StateAtIsFold(log, n - 1);
      assert Kvs(log)[..n][..n - 1] == Kvs(log)[..n - 1];
    }
  }

  lemma {:induction false} StateAtPrefix(log: seq<Command>, longer: seq<Command>, n: nat)
    requires n <= |log| && log <= longer
    ensures StateAt(longer, n) == StateAt(log, n)
  {
    if n > 0 {
      StateAtPrefix(log, longer, n - 1);
    }
  }

  lemma AnswerAtPrefix(log: seq<Command>, longer: seq<Command>, p: nat)
    requires 1 <= p <= |log| && log <= longer
    ensures AnswerAt(longer, p) == AnswerAt(log, p)
  {
    StateAtPrefix(log, longer, p - 1);
  }

  /** What a key holds after `n` entries, if nothing has written it since entry `p` did. */
  lemma {:induction false} StateAtAfterWrite(log: seq<Command>, p: nat, n: nat, k: string)
    requires 1 <= p <= n <= |log|
    requires Writes(log[p - 1].kv, k)
    requires forall q :: p <= q < n ==> !Writes(log[q].kv, k)
    ensures Lookup(StateAt(log, n), k) == Written(log[p - 1].kv)
  {
    if p < n {
      StateAtAfterWrite(log, p, n - 1, k);
      assert !Writes(log[n - 1].kv, k);
    }
  }
}
