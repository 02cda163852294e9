/**
 A whole undisturbed call of `handle_decided_entries`, and what does not depend on how the
 decided entries were cut into calls.
 */
module Calls {
  import opened Wrappers
  import opened Commands
  import opened Storage
  import opened Replica

  // ----- One whole call -----

  /** What one undisturbed call of `handle_decided_entries` makes of a server that is up and idle. */
  function HandleDecided(interval: nat, me: NodeId, log: seq<Command>, v: Node, failing: Option<SaveIo>): Node
    requires v.learned <= |log| && v.snapshotIdx <= |log|
  {
    if v.current >= v.learned then v
    else
      var from, to := Max(v.current, v.snapshotIdx), Max(v.learned, v.snapshotIdx);
      var since := v.since + (to - from);
      var saves := from < to && since >= interval;
      v.(current := v.learned,
         db := StateAt(log, to),
         answers := v.answers + AnswersBetween(me, log, from, to),
         since := if saves then 0 else since,
         disk := if saves then SaveFrom(v.disk, DatabaseSnapshot(StateAt(log, to), v.learned), CreateTmp, failing) else v.disk)
  }

  function Stepper(interval: nat, me: NodeId, log: seq<Command>): (Node, Step) -> Node {
    (v, step) => Next(interval, me, log, v, step)
  }

  function Steps(interval: nat, me: NodeId, log: seq<Command>, v: Node, steps: seq<Step>): Node {
    Fold(Stepper(interval, me, log), v, steps)
  }

  function EntrySteps(n: nat): seq<Step> {
    if n == 0 then [] else EntrySteps(n - 1) + [ApplyEntry, SendAnswer]
  }

  function SaveSteps(failing: Option<SaveIo>): seq<Step> {
    [SaveIoDone(failing != Some(CreateTmp)), SaveIoDone(failing != Some(WriteAll)), SaveIoDone(failing != Some(Flush)),
     SaveIoDone(failing != Some(Sync)), SaveIoDone(failing != Some(Rename))]
  }

  function CallSteps(v: Node, failing: Option<SaveIo>): seq<Step> {
    if v.current >= v.learned then []
    else [Begin] + EntrySteps(v.learned - v.current) + [EndBatch] + SaveSteps(failing)
  }

  lemma {:induction false} AnswersBetweenSplit(me: NodeId, log: seq<Command>, a: nat, b: nat, c: nat)
    requires a <= b <= c <= |log|
    ensures AnswersBetween(me, log, a, c) == AnswersBetween(me, log, a, b) + AnswersBetween(me, log, b, c)
  {
    if b < c {
      AnswersBetweenSplit(me, log, a, b, c - 1);
    }
  }

  /** A server inside a call, about to look at the entry after position `at`. */
  predicate LooksAt(log: seq<Command>, u: Node, at: nat) {
    && u.up && u.phase.Applying? && u.phase.start + u.phase.i == at
    && at < u.current <= |log| && u.snapshotIdx <= |log|
  }

  lemma WalkSkip(interval: nat, me: NodeId, log: seq<Command>, u: Node, at: nat)
    requires LooksAt(log, u, at) && at < u.snapshotIdx
    ensures Next(interval, me, log, Next(interval, me, log, u, ApplyEntry), SendAnswer) ==
            u.(phase := Applying(u.phase.start, u.phase.i + 1, u.phase.applied))
  {
  }

  lemma WalkApply(interval: nat, me: NodeId, log: seq<Command>, u: Node, at: nat)
    requires LooksAt(log, u, at) && u.snapshotIdx <= at && u.db == StateAt(log, at)
    ensures Next(interval, me, log, Next(interval, me, log, u, ApplyEntry), SendAnswer) ==
            u.(phase := Applying(u.phase.start, u.phase.i + 1, u.phase.applied + 1), db := StateAt(log, at + 1),
               answers := if log[at].coordinatorId == me then u.answers + [TheAnswer(log, at + 1)] else u.answers)
  {
    var applied := NextApply(me, log, u);
    assert Next(interval, me, log, u, ApplyEntry) == applied;
    assert applied.db == StateAt(log, at + 1);
  }

  lemma AnswersOfOne(me: NodeId, log: seq<Command>, at: nat)
    requires at < |log|
    ensures AnswersBetween(me, log, at, at) == []
    ensures AnswersBetween(me, log, at, at + 1) == if log[at].coordinatorId == me then [TheAnswer(log, at + 1)] else []
  {
    assert AnswersBetween(me, log, at, at) == [];
  }

  /** A server inside a call that has dealt with the first `n` entries. */
  function Walked(me: NodeId, log: seq<Command>, v: Node, n: nat): Node
    requires v.current + n <= |log| && v.snapshotIdx <= |log|
  {
    var from, to := Max(v.current, v.snapshotIdx), Max(v.current + n, v.snapshotIdx);
    v.(current := v.learned, phase := Applying(v.current, n, to - from), db := StateAt(log, to),
       answers := v.answers + AnswersBetween(me, log, from, to))
  }

  lemma WalkedAnswers(me: NodeId, log: seq<Command>, from: nat, at: nat)
    requires from <= at < |log|
    ensures AnswersBetween(me, log, from, at + 1) ==
            AnswersBetween(me, log, from, at) + (if log[at].coordinatorId == me then [TheAnswer(log, at + 1)] else [])
  {
    AnswersBetweenSplit(me, log, from, at, at + 1);
    AnswersOfOne(me, log, at);
  }

  lemma WalkedOneMore(interval: nat, me: NodeId, log: seq<Command>, v: Node, n: nat)
    requires v.up && v.learned <= |log| && v.snapshotIdx <= |log|
    requires v.current + n < v.learned
    ensures var u := Walked(me, log, v, n);
            Next(interval, me, log, Next(interval, me, log, u, ApplyEntry), SendAnswer) == Walked(me, log, v, n + 1)
  {
    hide Next, StateAt, AnswersBetween, TheAnswer;
    var from, at := Max(v.current, v.snapshotIdx), v.current + n;
    var u, u' := Walked(me, log, v, n), Walked(me, log, v, n + 1);
    if at < v.snapshotIdx {
      WalkSkip(interval, me, log, u, at);
    } else {
      WalkApply(interval, me, log, u, at);
      WalkedAnswers(me, log, from, at);
      assert u'.answers == if log[at].coordinatorId == me then u.answers + [TheAnswer(log, at + 1)] else u.answers;
    }
  }

  /** From `begun`, the steps for the first `n` entries lead to where those entries are dealt with. */
  predicate Reaches(interval: nat, me: NodeId, log: seq<Command>, v: Node, begun: Node, n: nat)
    requires v.current + n <= |log| && v.snapshotIdx <= |log|
  {
    Fold(Stepper(interval, me, log), begun, EntrySteps(n)) == Walked(me, log, v, n)
  }

  lemma WalkOn(interval: nat, me: NodeId, log: seq<Command>, v: Node, begun: Node, n: nat)
    requires v.up && v.learned <= |log| && v.snapshotIdx <= |log|
    requires v.current + n < v.learned
    requires Reaches(interval, me, log, v, begun, n)
    ensures Reaches(interval, me, log, v, begun, n + 1)
  {
    var f := Stepper(interval, me, log);
    FoldSnoc(f, begun, EntrySteps(n), ApplyEntry);
    FoldSnoc(f, begun, EntrySteps(n) + [ApplyEntry], SendAnswer);
    assert EntrySteps(n) + [ApplyEntry] + [SendAnswer] == EntrySteps(n + 1);
    WalkedOneMore(interval, me, log, v, n);
  }

  lemma {:induction false} WalkEntries(interval: nat, me: NodeId, log: seq<Command>, v: Node, begun: Node, n: nat)
    requires v.up && v.learned <= |log| && v.snapshotIdx <= |log|
    requires v.current + n <= v.learned
    requires Reaches(interval, me, log, v, begun, 0)
    ensures Reaches(interval, me, log, v, begun, n)
  {
    if n > 0 {
      WalkEntries(interval, me, log, v, begun, n - 1);
      WalkOn(interval, me, log, v, begun, n - 1);
    }
  }

  lemma BeginWalks(interval: nat, me: NodeId, log: seq<Command>, v: Node)
    requires v.up && v.phase.Idle? && v.current < v.learned <= |log| && v.snapshotIdx <= |log|
    requires v.db == StateAt(log, Max(v.current, v.snapshotIdx))
    ensures Stepper(interval, me, log)(v, Begin) == Walked(me, log, v, 0)
  {
    var from := Max(v.current, v.snapshotIdx);
    assert AnswersBetween(me, log, from, from) == [];
  }

  /** The steps of a save, taken by a server about to save. */
  lemma SavingRuns(interval: nat, me: NodeId, log: seq<Command>, v: Node, failing: Option<SaveIo>)
    requires v.up && v.phase == Saving(CreateTmp)
    ensures Fold(Stepper(interval, me, log), v, SaveSteps(failing)) ==
            v.(phase := Idle, since := 0, disk := SaveFrom(v.disk, DatabaseSnapshot(v.db, v.current), CreateTmp, failing))
  {
    hide Fold;
    var s, f := SaveSteps(failing), Stepper(interval, me, log);
    FoldFive(f, v, s[0], s[1], s[2], s[3], s[4]);
    var created := f(v, s[0]);
    var snap := DatabaseSnapshot(v.db, v.current);
    assert SaveFrom(v.disk, snap, CreateTmp, failing) ==
           if failing == Some(CreateTmp) then v.disk else SaveFrom(created.disk, snap, WriteAll, failing);
  }

  /** They do nothing to a server that is not saving. */
  lemma IdleRuns(interval: nat, me: NodeId, log: seq<Command>, v: Node, failing: Option<SaveIo>)
    requires v.phase.Idle?
    ensures Fold(Stepper(interval, me, log), v, SaveSteps(failing)) == v
  {
    var s := SaveSteps(failing);
    FoldFive(Stepper(interval, me, log), v, s[0], s[1], s[2], s[3], s[4]);
  }

  lemma EndedThenSaved(interval: nat, me: NodeId, log: seq<Command>, v: Node, failing: Option<SaveIo>)
    requires v.up && v.phase.Idle? && v.current < v.learned <= |log| && v.snapshotIdx <= |log|
    ensures var f := Stepper(interval, me, log);
            Fold(f, f(Walked(me, log, v, v.learned - v.current), EndBatch), SaveSteps(failing)) ==
            HandleDecided(interval, me, log, v, failing)
  {
    hide Fold, StateAt, SaveFrom;
    var walked := Walked(me, log, v, v.learned - v.current);
    var ended := NextEnd(interval, walked);
    assert Stepper(interval, me, log)(walked, EndBatch) == ended;
    if ended.phase.Idle? {
      IdleRuns(interval, me, log, ended, failing);
    } else {
      SavingRuns(interval, me, log, ended, failing);
    }
  }

  /** The small steps, taken one after another without a crash, make exactly the whole call. */
  lemma CallIsItsSteps(interval: nat, me: NodeId, log: seq<Command>, v: Node, failing: Option<SaveIo>)
    requires v.up && v.phase.Idle? && v.learned <= |log| && v.snapshotIdx <= |log|
    requires v.current <= |log| && v.db == StateAt(log, Max(v.current, v.snapshotIdx))
    ensures Steps(interval, me, log, v, CallSteps(v, failing)) == HandleDecided(interval, me, log, v, failing)
  {
    hide Next, StateAt, AnswersBetween, Stepper;
    if v.current < v.learned {
      var n := v.learned - v.current;
      var f, walked := Stepper(interval, me, log), Walked(me, log, v, n);
      BeginWalks(interval, me, log, v);
      WalkEntries(interval, me, log, v, Walked(me, log, v, 0), n);
      EndedThenSaved(interval, me, log, v, failing);
      FoldFour(f, v, Begin, EntrySteps(n), EndBatch, SaveSteps(failing),
               Walked(me, log, v, 0), walked, f(walked, EndBatch), HandleDecided(interval, me, log, v, failing));
    }
  }

  // ----- Batching -----

  /** A call made when the decided index has become `d`. */
  function Call(interval: nat, me: NodeId, log: seq<Command>, v: Node, d: nat): Node
    requires d <= |log| && v.snapshotIdx <= |log|
  {
    HandleDecided(interval, me, log, v.(learned := d), None)
  }

  function Calls(interval: nat, me: NodeId, log: seq<Command>, v: Node, ds: seq<nat>): (r: Node)
    requires v.snapshotIdx <= |log| && forall i :: 0 <= i < |ds| ==> ds[i] <= |log|
    ensures r.snapshotIdx == v.snapshotIdx
  {
    if ds == [] then v
    else Call(interval, me, log, Calls(interval, me, log, v, ds[..|ds| - 1]), ds[|ds| - 1])
  }

  /** Where a call at decided index `d` takes a server: the later of the cursors, as it would be then. */
  function CallEnd(v: Node, d: nat): nat {
    Max(Max(v.current, d), v.snapshotIdx)
  }

  /** What batching cannot change: the cursor, the map, and the answers in the order they were sent. */
  predicate Outcome(me: NodeId, log: seq<Command>, v: Node, d: nat, r: Node)
    requires d <= |log| && v.current <= |log| && v.snapshotIdx <= |log|
  {
    && r.current == Max(v.current, d)
    && r.db == StateAt(log, CallEnd(v, d))
    && r.answers == v.answers + AnswersBetween(me, log, CallEnd(v, 0), CallEnd(v, d))
    && r.snapshotIdx == v.snapshotIdx
  }

  /** With interval 1, the snapshot file is determined too. */
  predicate DiskOutcome(log: seq<Command>, v: Node, d: nat, r: Node)
    requires d <= |log| && v.current <= |log| && v.snapshotIdx <= |log|
  {
    && Durable(r.disk.main)
    && r.disk.main ==
       if CallEnd(v, 0) < CallEnd(v, d)
       then Some(File(Encode(DatabaseSnapshot(StateAt(log, d), d)), true)) else v.disk.main
  }

  lemma CallOutcome(interval: nat, me: NodeId, log: seq<Command>, v: Node, d: nat)
    requires d <= |log| && v.current <= |log| && v.snapshotIdx <= |log|
    requires v.db == StateAt(log, CallEnd(v, 0))
    ensures Outcome(me, log, v, d, Call(interval, me, log, v, d))
  {
    if v.current >= d {
      assert AnswersBetween(me, log, CallEnd(v, 0), CallEnd(v, d)) == [];
    }
  }

  lemma CallDiskOutcome(me: NodeId, log: seq<Command>, v: Node, d: nat)
    requires d <= |log| && v.current <= |log| && v.snapshotIdx <= |log|
    requires Durable(v.disk.main)
    ensures DiskOutcome(log, v, d, Call(1, me, log, v, d))
  {
    if v.current < d {
      SaveFromMain(v.disk, DatabaseSnapshot(StateAt(log, CallEnd(v, d)), d), CreateTmp, None);
    }
  }

  function Highest(ds: seq<nat>): nat {
    if ds == [] then 0 else Max(Highest(ds[..|ds| - 1]), ds[|ds| - 1])
  }

  lemma {:induction false} HighestBound(ds: seq<nat>, bound: nat)
    requires forall i :: 0 <= i < |ds| ==> ds[i] <= bound
    ensures Highest(ds) <= bound
  {
    if ds != [] {
      HighestBound(ds[..|ds| - 1], bound);
    }
  }

  lemma OneCallMore(interval: nat, me: NodeId, log: seq<Command>, v: Node, e: nat, mid: Node, d: nat)
    requires e <= |log| && d <= |log| && v.current <= |log| && v.snapshotIdx <= |log|
    requires Outcome(me, log, v, e, mid)
    ensures Outcome(me, log, v, Max(e, d), Call(interval, me, log, mid, d))
  {
    CallOutcome(interval, me, log, mid, d);
    AnswersBetweenSplit(me, log, CallEnd(v, 0), CallEnd(mid, 0), CallEnd(mid, d));
  }

  /**
   Batching does not matter. However the decided index climbs through repeated calls, the
   cursor, the map and the whole sequence of answers are those of one call at its highest value.
   */
  lemma {:induction false} BatchingDoesNotMatter(interval: nat, me: NodeId, log: seq<Command>, v: Node, ds: seq<nat>)
    requires forall i :: 0 <= i < |ds| ==> ds[i] <= |log|
    requires v.current <= |log| && v.snapshotIdx <= |log| && v.db == StateAt(log, CallEnd(v, 0))
    ensures Highest(ds) <= |log|
    ensures Outcome(me, log, v, Highest(ds), Calls(interval, me, log, v, ds))
    ensures Outcome(me, log, v, Highest(ds), Call(interval, me, log, v, Highest(ds)))
  {
    HighestBound(ds, |log|);
    CallOutcome(interval, me, log, v, Highest(ds));
    if ds == [] {
      assert AnswersBetween(me, log, CallEnd(v, 0), CallEnd(v, 0)) == [];
    } else {
      var init, d := ds[..|ds| - 1], ds[|ds| - 1];
      BatchingDoesNotMatter(interval, me, log, v, init);
      OneCallMore(interval, me, log, v, Highest(init), Calls(interval, me, log, v, init), d);
    }
  }

  /** With interval 1 and saves succeeding, the snapshot file does not depend on the batching either. */
  lemma {:induction false} BatchingKeepsDisk(me: NodeId, log: seq<Command>, v: Node, ds: seq<nat>)
    requires forall i :: 0 <= i < |ds| ==> ds[i] <= |log|
    requires v.current <= |log| && v.snapshotIdx <= |log| && v.db == StateAt(log, CallEnd(v, 0))
    requires Durable(v.disk.main)
    ensures Highest(ds) <= |log|
    ensures DiskOutcome(log, v, Highest(ds), Calls(1, me, log, v, ds))
    ensures Calls(1, me, log, v, ds).disk.main == Call(1, me, log, v, Highest(ds)).disk.main
  {
    hide StateAt, SaveFrom, AnswersBetween;
    HighestBound(ds, |log|);
    CallDiskOutcome(me, log, v, Highest(ds));
    if ds != [] {
      var init, d := ds[..|ds| - 1], ds[|ds| - 1];
      BatchingKeepsDisk(me, log, v, init);
      BatchingDoesNotMatter(1, me, log, v, init);
      var mid := Calls(1, me, log, v, init);
      CallDiskOutcome(me, log, mid, d);
    }
  }
}
