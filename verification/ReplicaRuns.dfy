/**
 Whole runs of one server: entries are decided and the server takes steps, in any order, with
 any crashes, failed saves, unreadable snapshots and restarts. A run is the list of what was
 tried; what is not possible at its turn changes nothing.
 */
module ReplicaRuns {
  import opened Wrappers
  import opened Commands
  import opened Storage
  import opened Replica

  datatype World = World(log: seq<Command>, node: Node)

  datatype Action = Decide(cmd: Command) | Local(step: Step)

  function Do(interval: nat, me: NodeId, w: World, action: Action): World {
    match action
    case Decide(cmd) => w.(log := w.log + [cmd])
    case Local(step) => w.(node := Next(interval, me, w.log, w.node, step))
  }

  function Run(interval: nat, me: NodeId, actions: seq<Action>): World {
    if actions == [] then World([], INIT)
    else Do(interval, me, Run(interval, me, actions[..|actions| - 1]), actions[|actions| - 1])
  }

  lemma {:induction false} RunKeepsInv(interval: nat, me: NodeId, actions: seq<Action>)
    ensures var w := Run(interval, me, actions); NodeInv(me, w.log, w.node)
  {
    if actions != [] {
      var w, action := Run(interval, me, actions[..|actions| - 1]), actions[|actions| - 1];
      RunKeepsInv(interval, me, actions[..|actions| - 1]);
      match action
      case Decide(cmd) => GrowKeepsInv(me, w.log, w.log + [cmd], w.node);
      case Local(step) => NextKeepsInv(interval, me, w.log, w.node, step);
    }
  }

  /**
   In every reachable state the map in memory is the fold of the log up to the applied
   position, which between calls is the later of the two cursors, and whatever `recover`
   would load from the disk is the fold up to its own index.
   */
  lemma RecoveryInvariant(interval: nat, me: NodeId, actions: seq<Action>)
    ensures var w := Run(interval, me, actions);
            var found := Recovered(w.node.disk, true);
            && (w.node.up ==>
                  && Applied(w.node) <= |w.log|
                  && w.node.db == ApplyAll(map[], Kvs(w.log)[..Applied(w.node)]))
            && (w.node.up && w.node.phase.Idle? ==> Applied(w.node) == Max(w.node.current, w.node.snapshotIdx))
            && (found.Some? ==>
                  && 1 <= found.value.decidedIdx <= |w.log|
                  && found.value.db == ApplyAll(map[], Kvs(w.log)[..found.value.decidedIdx]))
  {
    RunKeepsInv(interval, me, actions);
    var w := Run(interval, me, actions);
    if w.node.up {
      StateAtIsFold(w.log, Applied(w.node));
    }
    StateAtIsFold(w.log, DiskIdx(w.node.disk));
  }

  /**
   A crash anywhere followed by a start: the map restored is the fold up to the restored
   index, whether the snapshot could be read or not.
   */
  lemma CrashThenRecover(interval: nat, me: NodeId, actions: seq<Action>, garble: Garble, readable: bool, decided: nat)
    requires Run(interval, me, actions).node.up && decided <= |Run(interval, me, actions).log|
    ensures var w := Run(interval, me, actions);
            var again := Do(interval, me, Do(interval, me, w, Local(Crash(garble))), Local(Recover(readable, decided))).node;
            && again.up && again.current == 0
            && again.snapshotIdx == (if readable then DiskIdx(w.node.disk) else 0)
            && again.snapshotIdx <= |w.log|
            && again.db == ApplyAll(map[], Kvs(w.log)[..again.snapshotIdx])
            && Recovered(again.disk, true) == Recovered(w.node.disk, true)
  {
    RunKeepsInv(interval, me, actions);
    var w := Run(interval, me, actions);
    StateAtIsFold(w.log, DiskIdx(w.node.disk));
    StateAtIsFold(w.log, 0);
  }

  lemma AnswerMeaning(log: seq<Command>, p: nat)
    requires 1 <= p <= |log|
    ensures var cmd := log[p - 1];
            AnswerAt(log, p) == if cmd.kv.Get? then Read(cmd.id, LastWrite(None, Kvs(log)[..p - 1], cmd.kv.key)) else Write(cmd.id)
  {
    if log[p - 1].kv.Get? {
      StateAtIsFold(log, p - 1);
      ApplyAllLookup(map[], Kvs(log)[..p - 1], log[p - 1].kv.key);
    }
  }

  /**
   Whatever incarnation sends it, and however often, the answer for a log position is the same:
   a Write for a Put or Delete, and for a Get the value the last earlier write left at its key.
   */
  lemma AnswersReplayConsistently(interval: nat, me: NodeId, actions: seq<Action>, j: nat)
    requires j < |Run(interval, me, actions).node.answers|
    ensures var w := Run(interval, me, actions);
            var sent := w.node.answers[j];
            && 1 <= sent.pos <= |w.log|
            && var cmd := w.log[sent.pos - 1];
               && cmd.coordinatorId == me
               && sent.to == cmd.clientId
               && sent.msg == (if cmd.kv.Get?
                               then Read(cmd.id, LastWrite(None, Kvs(w.log)[..sent.pos - 1], cmd.kv.key))
                               else Write(cmd.id))
  {
    RunKeepsInv(interval, me, actions);
    var w := Run(interval, me, actions);
    assert w.node.answers[j] == TheAnswer(w.log, w.node.answers[j].pos);
    AnswerMeaning(w.log, w.node.answers[j].pos);
  }

  /** In log order, no position twice, all of them after `a` and up to `b`. */
  predicate Ascending(s: seq<Sent>, a: nat, b: nat) {
    && (forall i :: 0 <= i < |s| ==> a < s[i].pos <= b)
    && (forall i, j :: 0 <= i < j < |s| ==> s[i].pos < s[j].pos)
  }

  lemma {:induction false} AnswersBetweenAscend(me: NodeId, log: seq<Command>, a: nat, b: nat)
    requires b <= |log|
    ensures Ascending(AnswersBetween(me, log, a, b), a, b)
  {
    if a < b {
      AnswersBetweenAscend(me, log, a, b - 1);
      AscendingSnoc(AnswersBetween(me, log, a, b - 1), a, b, TheAnswer(log, b));
    }
  }

  lemma AscendingSnoc(s: seq<Sent>, a: nat, b: nat, last: Sent)
    requires a < b && Ascending(s, a, b - 1) && last.pos == b
    ensures Ascending(s + [last], a, b) && Ascending(s, a, b)
  {
  }

  /**
   Every position this server is past and coordinates has been answered, in this incarnation or
   an earlier one. Within one incarnation the answers go out in log order, each at most once,
   and none is for a position the snapshot covers.
   */
  predicate NothingSkipped(me: NodeId, log: seq<Command>, v: Node)
    requires v.mark <= |v.answers|
  {
    var here := v.answers[v.mark..];
    && Answered(v) <= |log|
    && (!v.phase.Replying? ==> Answered(v) == Applied(v))
    && (forall p :: 1 <= p <= Answered(v) && log[p - 1].coordinatorId == me ==> WasSent(v.answers, p))
    && Ascending(here, v.snapshotIdx, Answered(v))
  }

  lemma UpSkipsNothing(me: NodeId, log: seq<Command>, v: Node)
    requires NodeInv(me, log, v) && v.up
    ensures NothingSkipped(me, log, v)
  {
    AnswersBetweenAscend(me, log, v.snapshotIdx, Answered(v));
  }

  /** No command this server coordinates is skipped in silence. */
  lemma NoSilentSkip(interval: nat, me: NodeId, actions: seq<Action>)
    ensures var w := Run(interval, me, actions);
            w.node.up ==> w.node.mark <= |w.node.answers| && NothingSkipped(me, w.log, w.node)
  {
    RunKeepsInv(interval, me, actions);
    var w := Run(interval, me, actions);
    if w.node.up {
      UpSkipsNothing(me, w.log, w.node);
    }
  }

  // ----- The snapshot on disk over a whole run -----

  /** A start that takes place. */
  predicate Starts(w: World, action: Action) {
    action.Local? && action.step.Recover? && !w.node.up && action.step.decided <= |w.log|
  }

  /** A save gets through its last step: the new snapshot takes the place of the old. */
  predicate Renames(v: Node, action: Action) {
    action == Local(SaveIoDone(true)) && v.up && v.phase == Saving(Rename)
  }

  predicate BlindNext(w: World, action: Action, blind: bool) {
    if Starts(w, action) then !action.step.readable else blind && !Renames(w.node, action)
  }

  /** The last start could not read the snapshot file, and no save has replaced the file since. */
  predicate Blind(interval: nat, me: NodeId, actions: seq<Action>) {
    && actions != []
    && var init := actions[..|actions| - 1];
       BlindNext(Run(interval, me, init), actions[|actions| - 1], Blind(interval, me, init))
  }

  /** The position the server had applied when the call in progress, if any, began. */
  function CallStart(v: Node): nat {
    match v.phase
    case Applying(start, _, _) => Max(start, v.snapshotIdx)
    case Replying(start, _, _, _) => Max(start, v.snapshotIdx)
    case _ => Max(v.current, v.snapshotIdx)
  }

  /** What is needed of the invariant to follow the disk. */
  predicate DiskFacts(me: NodeId, log: seq<Command>, v: Node) {
    && DiskOk(log, v.disk)
    && (v.up ==> v.current <= |log| && PhaseOk(me, log, v))
  }

  lemma DiskAfter(interval: nat, me: NodeId, w: World, action: Action)
    requires DiskFacts(me, w.log, w.node)
    ensures DiskIdx(Do(interval, me, w, action).node.disk) ==
            if Renames(w.node, action) then w.node.current else DiskIdx(w.node.disk)
  {
    var v := w.node;
    if action.Local? && action.step.SaveIoDone? && v.up && v.phase.Saving? {
      SaveStepStaged(v.disk, DatabaseSnapshot(v.db, v.current), v.phase.io, action.step.ok);
    }
  }

  predicate BehindInv(v: Node, blind: bool) {
    v.up && !blind ==> DiskIdx(v.disk) <= CallStart(v) && (v.phase.Saving? ==> DiskIdx(v.disk) < v.current)
  }

  lemma BehindSave(interval: nat, me: NodeId, log: seq<Command>, v: Node, ok: bool, blind: bool)
    requires DiskFacts(me, log, v) && BehindInv(v, blind)
    requires v.up && v.phase.Saving?
    ensures BehindInv(Next(interval, me, log, v, SaveIoDone(ok)), blind && !(ok && v.phase.io.Rename?))
  {
    SaveStepStaged(v.disk, DatabaseSnapshot(v.db, v.current), v.phase.io, ok);
  }

  lemma BehindStep(interval: nat, me: NodeId, log: seq<Command>, v: Node, step: Step, blind: bool)
    requires DiskFacts(me, log, v) && BehindInv(v, blind)
    requires !step.SaveIoDone? && !step.Recover?
    ensures BehindInv(Next(interval, me, log, v, step), blind)
  {
  }

  lemma DoKeepsBehind(interval: nat, me: NodeId, w: World, action: Action, blind: bool)
    requires DiskFacts(me, w.log, w.node) && BehindInv(w.node, blind)
    ensures BehindInv(Do(interval, me, w, action).node, BlindNext(w, action, blind))
  {
    match action
    case Decide(_) =>
    case Local(step) =>
      if step.SaveIoDone? {
        if w.node.up && w.node.phase.Saving? {
          BehindSave(interval, me, w.log, w.node, step.ok, blind);
        }
      } else if !step.Recover? {
        BehindStep(interval, me, w.log, w.node, step, blind);
      }
  }

  lemma {:induction false} RunBehind(interval: nat, me: NodeId, actions: seq<Action>)
    ensures BehindInv(Run(interval, me, actions).node, Blind(interval, me, actions))
  {
    if actions != [] {
      var init := actions[..|actions| - 1];
      RunBehind(interval, me, init);
      RunKeepsInv(interval, me, init);
      DoKeepsBehind(interval, me, Run(interval, me, init), actions[|actions| - 1], Blind(interval, me, init));
    }
  }

  /**
   Even when saves fail, only a save that gets through its rename changes the index on disk. It
   raises it, whatever the interval and over the whole run with its restarts, exactly when the
   server does not overwrite a snapshot it could not read while being no further itself.
   */
  lemma SaveRaisesDiskIff(interval: nat, me: NodeId, actions: seq<Action>, action: Action)
    ensures var before, after := Run(interval, me, actions).node, Run(interval, me, actions + [action]).node;
            if Renames(before, action) then
              && DiskIdx(after.disk) == before.current
              && (DiskIdx(before.disk) < DiskIdx(after.disk) <==>
                    !(Blind(interval, me, actions) && before.current <= DiskIdx(before.disk)))
            else DiskIdx(after.disk) == DiskIdx(before.disk)
  {
    RunBehind(interval, me, actions);
    RunKeepsInv(interval, me, actions);
    DiskAfter(interval, me, Run(interval, me, actions), action);
    assert (actions + [action])[..|actions|] == actions;
  }

  /** The index on disk after the first `n` actions. */
  function DiskIdxAfter(interval: nat, me: NodeId, actions: seq<Action>, n: nat): nat
    requires n <= |actions|
  {
    DiskIdx(Run(interval, me, actions[..n]).node.disk)
  }

  /** Action `n` completes a save that is behind the unread snapshot it replaces. */
  predicate SetsBack(interval: nat, me: NodeId, actions: seq<Action>, n: nat)
    requires n < |actions|
  {
    var before := Run(interval, me, actions[..n]).node;
    Renames(before, actions[n]) && Blind(interval, me, actions[..n]) && before.current < DiskIdx(before.disk)
  }

  lemma SetsBackIff(interval: nat, me: NodeId, actions: seq<Action>, n: nat)
    requires n < |actions|
    ensures SetsBack(interval, me, actions, n) <==>
            DiskIdxAfter(interval, me, actions, n + 1) < DiskIdxAfter(interval, me, actions, n)
  {
    SaveRaisesDiskIff(interval, me, actions[..n], actions[n]);
    assert actions[..n + 1] == actions[..n] + [actions[n]];
  }

  lemma {:induction false} NeverSetBack(interval: nat, me: NodeId, actions: seq<Action>, i: nat, j: nat)
    requires i <= j <= |actions|
    requires forall n :: 0 <= n < |actions| ==> !SetsBack(interval, me, actions, n)
    ensures DiskIdxAfter(interval, me, actions, i) <= DiskIdxAfter(interval, me, actions, j)
    decreases j
  {
    if i < j {
      NeverSetBack(interval, me, actions, i, j - 1);
      SetsBackIff(interval, me, actions, j - 1);
    }
  }

  /** Over a whole run the index on disk never decreases, exactly if no save sets it back. */
  lemma DiskNeverGoesBackIff(interval: nat, me: NodeId, actions: seq<Action>)
    ensures (forall i, j :: 0 <= i <= j <= |actions| ==>
                              DiskIdxAfter(interval, me, actions, i) <= DiskIdxAfter(interval, me, actions, j))
            <==> forall n :: 0 <= n < |actions| ==> !SetsBack(interval, me, actions, n)
  {
    if n :| 0 <= n < |actions| && SetsBack(interval, me, actions, n) {
      SetsBackIff(interval, me, actions, n);
    } else {
      forall i, j | 0 <= i <= j <= |actions|
        ensures DiskIdxAfter(interval, me, actions, i) <= DiskIdxAfter(interval, me, actions, j)
      {
        NeverSetBack(interval, me, actions, i, j);
      }
    }
  }

  /** Where every start can read the snapshot file, no server is ever blind: each save raises the index, and none sets it back. */
  lemma {:induction false} ReadableNeverBlind(interval: nat, me: NodeId, actions: seq<Action>)
    requires forall i :: 0 <= i < |actions| && actions[i].Local? && actions[i].step.Recover? ==> actions[i].step.readable
    ensures !Blind(interval, me, actions)
    ensures forall n :: 0 <= n < |actions| ==> !SetsBack(interval, me, actions, n)
  {
    if actions != [] {
      var init := actions[..|actions| - 1];
      ReadableNeverBlind(interval, me, init);
      forall n | 0 <= n < |actions| ensures !SetsBack(interval, me, actions, n) {
        if n < |init| {
          assert init[..n] == actions[..n] && !SetsBack(interval, me, init, n);
        }
      }
    }
  }

  // ----- How far the snapshot lags behind -----

  predicate SaveSucceeds(action: Action) {
    action.Local? && action.step.SaveIoDone? ==> action.step.ok
  }

  predicate AllSave(actions: seq<Action>) {
    forall i :: 0 <= i < |actions| ==> SaveSucceeds(actions[i])
  }

  /** The index of the snapshot the server knows it has on disk. */
  function KnownIdx(disk: Disk, blind: bool): nat {
    if blind then 0 else DiskIdx(disk)
  }

  /** `exact` when no save has failed. */
  predicate LagInv(interval: nat, v: Node, blind: bool, exact: bool) {
    v.up ==>
      && KnownIdx(v.disk, blind) + v.since <= CallStart(v)
      && (exact ==> KnownIdx(v.disk, blind) + v.since == CallStart(v))
      && (blind ==> v.snapshotIdx == 0)
      && (!v.phase.Saving? ==> v.since < interval)
  }

  lemma LagSave(interval: nat, me: NodeId, log: seq<Command>, v: Node, ok: bool, blind: bool, exact: bool)
    requires interval >= 1 && DiskFacts(me, log, v) && LagInv(interval, v, blind, exact)
    requires v.up && v.phase.Saving?
    ensures LagInv(interval, Next(interval, me, log, v, SaveIoDone(ok)), blind && !(ok && v.phase.io.Rename?), exact && ok)
  {
    SaveStepStaged(v.disk, DatabaseSnapshot(v.db, v.current), v.phase.io, ok);
  }

  lemma LagStep(interval: nat, me: NodeId, log: seq<Command>, v: Node, step: Step, blind: bool, exact: bool)
    requires interval >= 1 && DiskFacts(me, log, v) && LagInv(interval, v, blind, exact)
    requires !step.SaveIoDone? && !step.Recover?
    ensures LagInv(interval, Next(interval, me, log, v, step), blind, exact)
  {
  }

  lemma DoKeepsLag(interval: nat, me: NodeId, w: World, action: Action, blind: bool, exact: bool)
    requires interval >= 1 && DiskFacts(me, w.log, w.node) && LagInv(interval, w.node, blind, exact)
    ensures LagInv(interval, Do(interval, me, w, action).node, BlindNext(w, action, blind), exact && SaveSucceeds(action))
  {
    match action
    case Decide(_) =>
    case Local(step) =>
      if step.SaveIoDone? {
        if w.node.up && w.node.phase.Saving? {
          LagSave(interval, me, w.log, w.node, step.ok, blind, exact);
        }
      } else if !step.Recover? {
        LagStep(interval, me, w.log, w.node, step, blind, exact);
      }
  }

  lemma {:induction false} RunLag(interval: nat, me: NodeId, actions: seq<Action>)
    requires interval >= 1
    ensures LagInv(interval, Run(interval, me, actions).node, Blind(interval, me, actions), AllSave(actions))
  {
    if actions != [] {
      var init, last := actions[..|actions| - 1], actions[|actions| - 1];
      RunLag(interval, me, init);
      RunKeepsInv(interval, me, init);
      DoKeepsLag(interval, me, Run(interval, me, init), last, Blind(interval, me, init), AllSave(init));
      assert AllSave(actions) <==> AllSave(init) && SaveSucceeds(last);
    }
  }

  /**
   Whenever no call is in progress, `entries_since_snapshot` is below the interval and at most
   the distance from the snapshot the server knows of to the applied position; with saves
   succeeding it is exactly that. It is then the distance from the snapshot on disk exactly
   unless there is one the server could not read when it started and has not replaced.
   */
  lemma SnapshotLag(interval: nat, me: NodeId, actions: seq<Action>)
    requires interval >= 1
    ensures var v, blind := Run(interval, me, actions).node, Blind(interval, me, actions);
            v.up && v.phase.Idle? ==>
              && v.since < interval
              && v.since <= Applied(v) - KnownIdx(v.disk, blind)
              && (AllSave(actions) ==>
                    && v.since == Applied(v) - KnownIdx(v.disk, blind)
                    && (v.since == Applied(v) - DiskIdx(v.disk) <==> !(blind && DiskIdx(v.disk) > 0)))
  {
    RunLag(interval, me, actions);
  }
}
