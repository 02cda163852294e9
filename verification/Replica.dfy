/**
 One server between two looks at the decided log, in steps small enough for a crash to fall
 between any two: learning, starting a batch, applying an entry, sending its answer, ending
 the batch, each input-output step of a save, crashing, and starting again from disk.
 */
module Replica {
  import opened Wrappers
  import opened Commands
  import opened Storage

  /** Where the server is inside `handle_decided_entries`. */
  datatype Phase =
    | Idle
    | Applying(start: nat, i: nat, applied: nat)
    | Replying(start: nat, i: nat, applied: nat, read: Option<Option<string>>)
    | Saving(io: SaveIo)

  /** An answer handed to the network: for which log position, to which connection. */
  datatype Sent = Sent(pos: nat, to: ClientId, msg: ServerMessage)

  /**
   `answers` and `mark` are history variables: everything ever sent by this server, in all
   incarnations, and where the present incarnation begins in it.
   */
  datatype Node = Node(
    up: bool, current: nat, snapshotIdx: nat, since: nat, learned: nat, db: Table,
    phase: Phase, disk: Disk, answers: seq<Sent>, mark: nat)

  datatype Step =
    | Learn(decided: nat)
    | Begin
    | ApplyEntry
    | SendAnswer
    | EndBatch
    | SaveIoDone(ok: bool)
    | Crash(garble: Garble)
    | Recover(readable: bool, decided: nat)

  const INIT := Node(false, 0, 0, 0, 0, map[], Idle, Disk(None, None), [], 0)

  function Message(cmd: Command, read: Option<Option<string>>): ServerMessage {
    if read.Some? then Read(cmd.id, read.value) else Write(cmd.id)
  }

  /** One step; a step that is not possible leaves the server as it is. */
  function Next(interval: nat, me: NodeId, log: seq<Command>, v: Node, step: Step): Node {
    match step
    case Learn(decided) =>
      if v.up && v.learned <= decided <= |log| then v.(learned := decided) else v
    case Begin =>
      if v.up && v.phase.Idle? && v.current < v.learned
      then v.(phase := Applying(v.current, 0, 0), current := v.learned) else v
    case ApplyEntry =>
      if v.up && v.phase.Applying? && v.phase.start + v.phase.i < v.current <= |log| then NextApply(me, log, v) else v
    case SendAnswer =>
      if v.up && v.phase.Replying? && v.phase.start + v.phase.i < |log| then
        var cmd := log[v.phase.start + v.phase.i];
        v.(answers := v.answers + [Sent(v.phase.start + v.phase.i + 1, cmd.clientId, Message(cmd, v.phase.read))],
           phase := Applying(v.phase.start, v.phase.i + 1, v.phase.applied))
      else v
    case EndBatch =>
      if v.up && v.phase.Applying? && v.phase.start + v.phase.i >= v.current then NextEnd(interval, v) else v
    case SaveIoDone(ok) =>
      if v.up && v.phase.Saving? then
        var (disk, next) := SaveStep(v.disk, DatabaseSnapshot(v.db, v.current), v.phase.io, ok);
        if next.Some? then v.(disk := disk, phase := Saving(next.value)) else v.(disk := disk, phase := Idle, since := 0)
      else v
    case Crash(garble) =>
      if v.up then v.(up := false, phase := Idle, disk := Crashed(v.disk, garble)) else v
    case Recover(readable, decided) =>
      if !v.up && decided <= |log| then NextRecover(v, readable, decided) else v
  }

  function NextApply(me: NodeId, log: seq<Command>, v: Node): Node
    requires v.phase.Applying? && v.phase.start + v.phase.i < v.current <= |log|
  {
    var Applying(start, i, applied) := v.phase;
    var entryIdx := start + i + 1;
    if entryIdx <= v.snapshotIdx then v.(phase := Applying(start, i + 1, applied))
    else
      var cmd := log[entryIdx - 1];
      var phase :=
        if cmd.coordinatorId == me then Replying(start, i, applied + 1, ReadBy(v.db, cmd.kv))
        else Applying(start, i + 1, applied + 1);
      v.(db := Apply(v.db, cmd.kv), phase := phase)
  }

  function NextEnd(interval: nat, v: Node): Node
    requires v.phase.Applying?
  {
    var applied := v.phase.applied;
    if applied == 0 then v.(phase := Idle)
    else
      var since := v.since + applied;
      v.(since := since, phase := if since >= interval then Saving(CreateTmp) else Idle)
  }

  function NextRecover(v: Node, readable: bool, decided: nat): Node {
    var found := Recovered(v.disk, readable);
    v.(up := true, current := 0, since := 0, learned := decided, phase := Idle, mark := |v.answers|,
       snapshotIdx := if found.Some? then found.value.decidedIdx else 0,
       db := if found.Some? then found.value.db else map[])
  }

  // ----- What holds in every state -----

  /** The last log position whose effect the in-memory map has. */
  function Applied(v: Node): nat {
    match v.phase
    case Applying(start, i, _) => Max(start + i, v.snapshotIdx)
    case Replying(start, i, _, _) => start + i + 1
    case _ => Max(v.current, v.snapshotIdx)
  }

  /** The last log position whose answer, if it is this server's to give, has been sent. */
  function Answered(v: Node): nat {
    if v.phase.Replying? then v.phase.start + v.phase.i else Applied(v)
  }

  /** The position the snapshot on disk stands for; 0 when there is none. */
  function DiskIdx(disk: Disk): nat {
    if disk.main.Some? && disk.main.value.content.Json? then disk.main.value.content.snap.decidedIdx else 0
  }

  function TheAnswer(log: seq<Command>, p: nat): Sent
    requires 1 <= p <= |log|
  {
    Sent(p, log[p - 1].clientId, AnswerAt(log, p))
  }

  /** The answers owed by `me` for the positions after `a` up to `b`, in log order. */
  function AnswersBetween(me: NodeId, log: seq<Command>, a: nat, b: nat): seq<Sent>
    requires b <= |log|
  {
    if b <= a then []
    else AnswersBetween(me, log, a, b - 1) + (if log[b - 1].coordinatorId == me then [TheAnswer(log, b)] else [])
  }

  predicate DiskOk(log: seq<Command>, disk: Disk) {
    && Durable(disk.main)
    && (disk.main.Some? ==>
          && disk.main.value.content.Json?
          && var snap := disk.main.value.content.snap;
             && 1 <= snap.decidedIdx <= |log|
             && snap.db == StateAt(log, snap.decidedIdx))
  }

  /** Every answer ever sent is the one answer its position can have. */
  predicate AnswersOk(me: NodeId, log: seq<Command>, answers: seq<Sent>) {
    forall j :: 0 <= j < |answers| ==>
                  && 1 <= answers[j].pos <= |log|
                  && log[answers[j].pos - 1].coordinatorId == me
                  && answers[j] == TheAnswer(log, answers[j].pos)
  }

  predicate WasSent(answers: seq<Sent>, p: nat) {
    exists j :: 0 <= j < |answers| && answers[j].pos == p
  }

  /** Every position up to `b` that is this server's to answer has been answered at least once. */
  predicate Covered(me: NodeId, log: seq<Command>, answers: seq<Sent>, b: nat) {
    b <= |log| && forall p :: 1 <= p <= b && log[p - 1].coordinatorId == me ==> WasSent(answers, p)
  }

  predicate PhaseOk(me: NodeId, log: seq<Command>, v: Node)
    requires v.current <= |log|
  {
    match v.phase
    case Idle => true
    case Applying(start, i, applied) =>
      && start + i <= v.current
      && applied == Max(start + i, v.snapshotIdx) - Max(start, v.snapshotIdx)
    case Replying(start, i, applied, read) =>
      && v.snapshotIdx <= start + i < v.current
      && applied == start + i + 1 - Max(start, v.snapshotIdx)
      && log[start + i].coordinatorId == me
      && read == ReadBy(StateAt(log, start + i), log[start + i].kv)
    case Saving(io) =>
      && v.snapshotIdx < v.current
      && Staged(v.disk, DatabaseSnapshot(v.db, v.current), io)
  }

  predicate UpOk(me: NodeId, log: seq<Command>, v: Node) {
    && v.current <= v.learned <= |log|
    && v.snapshotIdx <= |log|
    && PhaseOk(me, log, v)
    && v.db == StateAt(log, Applied(v))
    && v.mark <= |v.answers|
    && v.answers[v.mark..] == AnswersBetween(me, log, v.snapshotIdx, Answered(v))
    && Covered(me, log, v.answers, Answered(v))
  }

  predicate NodeInv(me: NodeId, log: seq<Command>, v: Node) {
    && DiskOk(log, v.disk)
    && AnswersOk(me, log, v.answers)
    && Covered(me, log, v.answers, DiskIdx(v.disk))
    && (v.up ==> UpOk(me, log, v))
  }

  lemma CoveredExtend(me: NodeId, log: seq<Command>, answers: seq<Sent>, b: nat, sent: Sent)
    requires Covered(me, log, answers, b)
    ensures Covered(me, log, answers + [sent], b)
    ensures b < |log| && sent.pos == b + 1 ==> Covered(me, log, answers + [sent], b + 1)
  {
    var all := answers + [sent];
    assert all[|answers|] == sent;
    forall p | 1 <= p <= b && log[p - 1].coordinatorId == me ensures WasSent(all, p) {
      assert WasSent(answers, p);
      var j :| 0 <= j < |answers| && answers[j].pos == p;
      assert all[j].pos == p;
    }
  }

  lemma ApplyKeepsInv(me: NodeId, log: seq<Command>, v: Node)
    requires NodeInv(me, log, v) && v.up
    requires v.phase.Applying? && v.phase.start + v.phase.i < v.current
    ensures NodeInv(me, log, NextApply(me, log, v))
  {
    hide DiskOk, AnswersOk;
  }

  lemma SendKeepsInv(interval: nat, me: NodeId, log: seq<Command>, v: Node)
    requires NodeInv(me, log, v)
    ensures NodeInv(me, log, Next(interval, me, log, v, SendAnswer))
  {
    if v.up && v.phase.Replying? {
      var pos := v.phase.start + v.phase.i + 1;
      var sent := Sent(pos, log[pos - 1].clientId, Message(log[pos - 1], v.phase.read));
      assert sent == TheAnswer(log, pos);
      CoveredExtend(me, log, v.answers, DiskIdx(v.disk), sent);
      CoveredExtend(me, log, v.answers, pos - 1, sent);
      assert (v.answers + [sent])[v.mark..] == v.answers[v.mark..] + [sent];
    }
  }

  lemma SaveKeepsInv(interval: nat, me: NodeId, log: seq<Command>, v: Node, ok: bool)
    requires NodeInv(me, log, v)
    ensures NodeInv(me, log, Next(interval, me, log, v, SaveIoDone(ok)))
  {
    if v.up && v.phase.Saving? {
      SaveStepStaged(v.disk, DatabaseSnapshot(v.db, v.current), v.phase.io, ok);
    }
  }

  lemma RecoverKeepsInv(me: NodeId, log: seq<Command>, v: Node, readable: bool, decided: nat)
    requires NodeInv(me, log, v) && !v.up && decided <= |log|
    ensures NodeInv(me, log, NextRecover(v, readable, decided))
  {
    assert v.answers[|v.answers|..] == [];
  }

  lemma EndKeepsInv(interval: nat, me: NodeId, log: seq<Command>, v: Node)
    requires NodeInv(me, log, v) && v.up
    requires v.phase.Applying? && v.phase.start + v.phase.i >= v.current
    ensures NodeInv(me, log, NextEnd(interval, v))
  {
  }

  lemma NextKeepsInv(interval: nat, me: NodeId, log: seq<Command>, v: Node, step: Step)
    requires NodeInv(me, log, v)
    ensures NodeInv(me, log, Next(interval, me, log, v, step))
  {
    match step
    case Learn(_) =>
    case Begin =>
    case ApplyEntry =>
      if v.up && v.phase.Applying? && v.phase.start + v.phase.i < v.current {
        ApplyKeepsInv(me, log, v);
      }
    case SendAnswer => SendKeepsInv(interval, me, log, v);
    case EndBatch =>
      if v.up && v.phase.Applying? && v.phase.start + v.phase.i >= v.current {
        EndKeepsInv(interval, me, log, v);
      }
    case SaveIoDone(ok) => SaveKeepsInv(interval, me, log, v, ok);
    case Crash(_) =>
    case Recover(readable, decided) =>
      if !v.up && decided <= |log| {
        RecoverKeepsInv(me, log, v, readable, decided);
      }
  }

  // ----- The log may grow meanwhile -----

  lemma {:induction false} AnswersBetweenPrefix(me: NodeId, log: seq<Command>, longer: seq<Command>, a: nat, b: nat)
    requires b <= |log| && log <= longer
    ensures AnswersBetween(me, longer, a, b) == AnswersBetween(me, log, a, b)
  {
    if a < b {
      AnswersBetweenPrefix(me, log, longer, a, b - 1);
      AnswerAtPrefix(log, longer, b);
    }
  }

  lemma GrowKeepsInv(me: NodeId, log: seq<Command>, longer: seq<Command>, v: Node)
    requires NodeInv(me, log, v) && log <= longer
    ensures NodeInv(me, longer, v)
  {
    StateAtPrefix(log, longer, DiskIdx(v.disk));
    forall j | 0 <= j < |v.answers| ensures v.answers[j] == TheAnswer(longer, v.answers[j].pos) {
      AnswerAtPrefix(log, longer, v.answers[j].pos);
    }
    if v.up {
      StateAtPrefix(log, longer, Applied(v));
      AnswersBetweenPrefix(me, log, longer, v.snapshotIdx, Answered(v));
      if v.phase.Replying? {
        StateAtPrefix(log, longer, v.phase.start + v.phase.i);
      }
    }
  }
}
