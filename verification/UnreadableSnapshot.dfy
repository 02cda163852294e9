/**
 The one way a save can fail to raise the index on disk: the snapshot file exists but cannot be
 read at a start, the server begins from nothing, and its first save may be no further than the
 file it replaces.
 */
module UnreadableSnapshot {
  import opened Wrappers
  import opened Commands
  import opened Storage
  import opened Replica
  import opened ReplicaRuns
  import opened Calls

  function Locals(steps: seq<Step>): (r: seq<Action>)
    ensures |r| == |steps| && forall i :: 0 <= i < |steps| ==> r[i] == Local(steps[i])
  {
    seq(|steps|, i requires 0 <= i < |steps| => Local(steps[i]))
  }

  lemma {:induction false} RunLocals(interval: nat, me: NodeId, actions: seq<Action>, steps: seq<Step>)
    ensures var w := Run(interval, me, actions);
            Run(interval, me, actions + Locals(steps)) == World(w.log, Steps(interval, me, w.log, w.node, steps))
  {
    if steps == [] {
      assert actions + Locals(steps) == actions;
    } else {
      var init, last := steps[..|steps| - 1], steps[|steps| - 1];
      RunLocals(interval, me, actions, init);
      assert steps == init + [last];
      assert (actions + Locals(steps))[..|actions + Locals(steps)| - 1] == actions + Locals(init);
    }
  }

  /** A start that cannot read the snapshot, followed by one call. */
  function UnreadableStart(interval: nat, me: NodeId, actions: seq<Action>, decided: nat, failing: Option<SaveIo>): seq<Action> {
    var started := actions + [Local(Recover(false, decided))];
    started + Locals(CallSteps(Run(interval, me, started).node, failing))
  }

  lemma StartedRun(interval: nat, me: NodeId, actions: seq<Action>, readable: bool, decided: nat)
    requires var w := Run(interval, me, actions); !w.node.up && decided <= |w.log|
    ensures var w := Run(interval, me, actions);
            Run(interval, me, actions + [Local(Recover(readable, decided))]) == World(w.log, NextRecover(w.node, readable, decided))
  {
    assert (actions + [Local(Recover(readable, decided))])[..|actions|] == actions;
  }

  lemma UnreadableStartRun(interval: nat, me: NodeId, actions: seq<Action>, decided: nat, failing: Option<SaveIo>)
    requires var w := Run(interval, me, actions); !w.node.up && decided <= |w.log|
    ensures var w := Run(interval, me, actions);
            Run(interval, me, UnreadableStart(interval, me, actions, decided, failing)) ==
            World(w.log, HandleDecided(interval, me, w.log, NextRecover(w.node, false, decided), failing))
  {
    var w := Run(interval, me, actions);
    var v := NextRecover(w.node, false, decided);
    StartedRun(interval, me, actions, false, decided);
    RunLocals(interval, me, actions + [Local(Recover(false, decided))], CallSteps(v, failing));
    CallIsItsSteps(interval, me, w.log, v, failing);
  }

  /** The first call after a start from nothing saves if it applies enough entries. */
  lemma FirstCall(interval: nat, me: NodeId, log: seq<Command>, v: Node, failing: Option<SaveIo>)
    requires interval >= 1 && v.learned <= |log| && v.current == v.snapshotIdx == v.since == 0
    requires Durable(v.disk.main)
    ensures var r := HandleDecided(interval, me, log, v, failing);
            && r.up == v.up && r.phase == v.phase && Durable(r.disk.main)
            && r.current == v.learned && r.snapshotIdx == 0
            && r.since == (if v.learned < interval then v.learned else 0)
            && DiskIdx(r.disk) == if v.learned < interval || failing.Some? then DiskIdx(v.disk) else v.learned
  {
    SaveFromMain(v.disk, DatabaseSnapshot(StateAt(log, v.learned), v.learned), CreateTmp, failing);
  }

  /**
   An unreadable start followed by one call puts the index on disk back exactly when its save
   does not fail and the server then knew enough decided entries to save, but fewer than the
   file stood for.
   */
  lemma DiskGoesBackIff(interval: nat, me: NodeId, actions: seq<Action>, decided: nat, failing: Option<SaveIo>)
    requires interval >= 1
    requires var w := Run(interval, me, actions); !w.node.up && decided <= |w.log|
    ensures var before := DiskIdx(Run(interval, me, actions).node.disk);
            var after := DiskIdx(Run(interval, me, UnreadableStart(interval, me, actions, decided, failing)).node.disk);
            && after == (if decided < interval || failing.Some? then before else decided)
            && (after < before <==> failing.None? && interval <= decided < before)
  {
    var w := Run(interval, me, actions);
    RunKeepsInv(interval, me, actions);
    UnreadableStartRun(interval, me, actions, decided, failing);
    FirstCall(interval, me, w.log, NextRecover(w.node, false, decided), failing);
  }

  // ----- It does happen -----

  const PUT := Command(1, 0, 0, Put("k", "v"))

  function Booted(): seq<Action> {
    [Decide(PUT), Decide(PUT), Local(Recover(true, 2))]
  }

  /** Two entries decided, a start from nothing, one call, a crash. */
  function TwoSaved(): seq<Action> {
    Booted() + Locals(CallSteps(NextRecover(INIT, true, 2), None)) + [Local(Crash(Garble(None, None)))]
  }

  lemma BootedRun(interval: nat)
    ensures Run(interval, 0, Booted()) == World([PUT, PUT], NextRecover(INIT, true, 2))
  {
    assert Booted()[..2] == [Decide(PUT), Decide(PUT)];
    assert [Decide(PUT), Decide(PUT)][..1] == [Decide(PUT)] && [Decide(PUT)][..0] == [];
    assert Run(interval, 0, [Decide(PUT)]) == World([PUT], INIT);
    assert Run(interval, 0, [Decide(PUT), Decide(PUT)]) == World([PUT, PUT], INIT);
  }

  lemma TwoSavedRun(interval: nat)
    requires 1 <= interval <= 2
    ensures var w := Run(interval, 0, TwoSaved());
            !w.node.up && w.log == [PUT, PUT] && DiskIdx(w.node.disk) == 2
  {
    var log, v := [PUT, PUT], NextRecover(INIT, true, 2);
    var steps := CallSteps(v, None);
    BootedRun(interval);
    RunLocals(interval, 0, Booted(), steps);
    CallIsItsSteps(interval, 0, log, v, None);
    FirstCall(interval, 0, log, v, None);
    assert TwoSaved()[..|TwoSaved()| - 1] == Booted() + Locals(steps);
  }

  /** A run after which the file stands for two entries, then only for one. */
  lemma DiskCanGoBack()
    ensures DiskIdx(Run(1, 0, TwoSaved()).node.disk) == 2
    ensures DiskIdx(Run(1, 0, UnreadableStart(1, 0, TwoSaved(), 1, None)).node.disk) == 1
  {
    TwoSavedRun(1);
    DiskGoesBackIff(1, 0, TwoSaved(), 1, None);
  }

  /** The steps of a call up to the rename of its save. */
  function UntilRename(v: Node): seq<Step> {
    [Begin] + EntrySteps(v.learned) + [EndBatch] + SaveSteps(None)[..4]
  }

  lemma FourSaveSteps(interval: nat, me: NodeId, log: seq<Command>, v: Node)
    requires v.up && v.phase == Saving(CreateTmp)
    ensures var u := Fold(Stepper(interval, me, log), v, SaveSteps(None)[..4]);
            u.up && u.phase == Saving(Rename) && u.current == v.current && u.disk.main == v.disk.main
  {
    var f, step := Stepper(interval, me, log), SaveIoDone(true);
    FoldThree(f, v, step, step, step);
    FoldSnoc(f, v, [step, step, step], step);
    assert SaveSteps(None)[..4] == [step, step, step] + [step];
  }

  /** A call of a server that started from nothing, stopped just before the rename of its save. */
  lemma StepsUntilRename(interval: nat, me: NodeId, log: seq<Command>, v: Node)
    requires v.up && v.phase.Idle? && v.current == v.snapshotIdx == v.since == 0 && v.db == map[]
    requires 1 <= interval <= v.learned <= |log|
    ensures var u := Steps(interval, me, log, v, UntilRename(v));
            u.up && u.phase == Saving(Rename) && u.current == v.learned && u.disk.main == v.disk.main
  {
    var f, n := Stepper(interval, me, log), v.learned;
    var begun, walked := Walked(me, log, v, 0), Walked(me, log, v, n);
    var ended := NextEnd(interval, walked);
    BeginWalks(interval, me, log, v);
    WalkEntries(interval, me, log, v, begun, n);
    FourSaveSteps(interval, me, log, ended);
    var last := SaveSteps(None)[..4];
    FoldFour(f, v, Begin, EntrySteps(n), EndBatch, last, begun, walked, ended, Fold(f, ended, last));
  }

  /** Two entries saved, an unreadable start that knows both, and a call as far as the rename of its save. */
  function SaveAgain(): seq<Action> {
    TwoSaved() + [Local(Recover(false, 2))] + Locals(UntilRename(NextRecover(Run(1, 0, TwoSaved()).node, false, 2)))
  }

  /** The rename then completes a save, yet the index stays where it was. */
  lemma SaveNeedNotRaiseDisk()
    ensures Renames(Run(1, 0, SaveAgain()).node, Local(SaveIoDone(true)))
    ensures DiskIdx(Run(1, 0, SaveAgain()).node.disk) == 2
    ensures DiskIdx(Run(1, 0, SaveAgain() + [Local(SaveIoDone(true))]).node.disk) == 2
  {
    var w := Run(1, 0, TwoSaved());
    var v := NextRecover(w.node, false, 2);
    TwoSavedRun(1);
    StartedRun(1, 0, TwoSaved(), false, 2);
    RunLocals(1, 0, TwoSaved() + [Local(Recover(false, 2))], UntilRename(v));
    StepsUntilRename(1, 0, w.log, v);
    SaveRaisesDiskIff(1, 0, SaveAgain(), Local(SaveIoDone(true)));
  }

  lemma {:induction false} EntryStepsSaveNothing(n: nat)
    ensures forall i :: 0 <= i < |EntrySteps(n)| ==> !EntrySteps(n)[i].SaveIoDone?
  {
    if n > 0 {
      EntryStepsSaveNothing(n - 1);
    }
  }

  lemma CallStepsSave(v: Node)
    ensures AllSave(Locals(CallSteps(v, None)))
  {
    if v.current < v.learned {
      EntryStepsSaveNothing(v.learned - v.current);
    }
  }

  lemma TwoSavedSaves()
    ensures AllSave(TwoSaved())
  {
    CallStepsSave(NextRecover(INIT, true, 2));
  }

  lemma UnreadableStartSaves(interval: nat, me: NodeId, actions: seq<Action>, decided: nat)
    requires AllSave(actions)
    ensures AllSave(UnreadableStart(interval, me, actions, decided, None))
  {
    CallStepsSave(Run(interval, me, actions + [Local(Recover(false, decided))]).node);
  }

  /**
   With every save succeeding, a server between calls can be one entry behind the file while it
   counts one entry ahead of it.
   */
  lemma SnapshotCanBeAhead()
    ensures var actions := UnreadableStart(2, 0, TwoSaved(), 1, None);
            var v := Run(2, 0, actions).node;
            && AllSave(actions)
            && v.up && v.phase.Idle?
            && Applied(v) == 1 && v.since == 1 && DiskIdx(v.disk) == 2
  {
    var w := Run(2, 0, TwoSaved());
    TwoSavedRun(2);
    RunKeepsInv(2, 0, TwoSaved());
    UnreadableStartRun(2, 0, TwoSaved(), 1, None);
    FirstCall(2, 0, w.log, NextRecover(w.node, false, 1), None);
    TwoSavedSaves();
    UnreadableStartSaves(2, 0, TwoSaved(), 1);
  }
}
