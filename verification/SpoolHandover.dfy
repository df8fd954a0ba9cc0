/** Inheriting at the grain of locks: the parent's snapshot and the child's write are two lock sections. */
module SpoolHandover {
  import opened Text
  import opened Spool
  import opened SpoolRuns
  import opened SpoolInherit
  import opened ResumeChain
  import opened SpoolLock
  import opened SpoolRefinement

  /** The process has taken `snapshot` and not yet finished writing it into the file of `child`. */
  predicate InCall(pc: PC, child: string, snapshot: seq<Row>) {
    || (pc.Leaving? && pc.job.Snapshotting? && pc.job.child == child && pc.snapshot == snapshot)
    || ((pc.Wanting? || pc.Holding? || pc.Loaded? || pc.Staged? || pc.Leaving?) && WritesTo(pc.job, child, snapshot))
  }

  predicate WritesTo(job: Job, child: string, snapshot: seq<Row>) {
    job.Single? && job.path == child && job.op.OpInherit? && job.op.snapshot == snapshot && |job.op.ids| == |snapshot|
  }

  /** The child's file knows every authority of the snapshot. */
  predicate Handed(w: World, child: string, snapshot: seq<Row>) {
    forall k :: 0 <= k < |snapshot| ==> snapshot[k].authority == "" || Known(File(w, child), snapshot[k].authority)
  }

  /** A file never forgets an authority, whoever works on it. */
  lemma KnownStays(w: World, q: Proc, step: Step, path: string, a: string)
    requires SpoolLock.Inv(w) && Known(File(w, path), a)
    ensures Known(File(SpoolLock.Next(w, q, step), path), a)
  {
    hide SpoolLock.Inv, Known, File, SpoolLock.Next, Exec;
    StepRefines(w, q, step, path);
    RunKnown(File(w, path), path, Effect(w, q, step, path), a);
  }

  lemma HandedStays(w: World, q: Proc, step: Step, child: string, snapshot: seq<Row>)
    requires SpoolLock.Inv(w) && Handed(w, child, snapshot)
    ensures Handed(SpoolLock.Next(w, q, step), child, snapshot)
  {
    hide SpoolLock.Inv, Known, File, SpoolLock.Next;
    forall k | 0 <= k < |snapshot| && snapshot[k].authority != ""
      ensures Known(File(SpoolLock.Next(w, q, step), child), snapshot[k].authority)
    {
      KnownStays(w, q, step, child, snapshot[k].authority);
    }
  }

  /** When the write section is over, the child knows the snapshot. */
  lemma WrittenHands(w: World, p: Proc, child: string, snapshot: seq<Row>)
    requires SpoolLock.Inv(w) && PcOf(w, p).Leaving? && WritesTo(PcOf(w, p).job, child, snapshot)
    ensures Handed(w, child, snapshot)
  {
    hide SpoolLock.Inv, Known, InheritInto, HasAuthority;
    InvAt(w, p);
    var pc := PcOf(w, p);
    var op := pc.job.op;
    assert File(w, child) == Apply(pc.base, child, op);
    forall k | 0 <= k < |snapshot| && snapshot[k].authority != "" ensures Known(File(w, child), snapshot[k].authority) {
      HasAuthorityIn(snapshot, k);
      IntoKnown(pc.base, child, snapshot, op.ids, op.now, op.parent, op.via, snapshot[k].authority);
    }
  }

  /** The caller's own steps take it through the call to its end. */
  lemma OwnStep(w: World, p: Proc, step: Step, child: string, snapshot: seq<Row>)
    requires SpoolLock.Inv(w) && InCall(PcOf(w, p), child, snapshot) && !step.Fail?
    ensures var w' := SpoolLock.Next(w, p, step);
      InCall(PcOf(w', p), child, snapshot) || Handed(w', child, snapshot)
  {
    hide SpoolLock.Inv, Known, File, Handed, Apply, Writes, Starts, Eligible;
    var pc, w' := PcOf(w, p), SpoolLock.Next(w, p, step);
    if pc.Leaving? && step.Release? && |step.ids| == |pc.snapshot| {
      if pc.job.Snapshotting? {
        if snapshot == [] { NothingHanded(w', child); }
      } else {
        WrittenHands(w, p, child, snapshot);
        HandedStays(w, p, step, child, snapshot);
      }
    }
  }

  lemma NothingHanded(w: World, child: string)
    ensures Handed(w, child, [])
  {
  }

  lemma OtherStep(w: World, p: Proc, q: Proc, step: Step)
    requires q != p
    ensures PcOf(SpoolLock.Next(w, q, step), p) == PcOf(w, p)
  {
    hide Apply, Writes, Starts, Eligible, Entered, Written, Left;
  }

  /** `p` does not die in the run. */
  predicate Survives(steps: seq<(Proc, Step)>, p: Proc) {
    forall i :: 0 <= i < |steps| && steps[i].0 == p ==> !steps[i].1.Fail?
  }

  /** Whatever runs between and around the two lock sections, the call goes on until the child knows the snapshot. */
  lemma {:induction false} HandoverCompletes(w: World, p: Proc, steps: seq<(Proc, Step)>, child: string, snapshot: seq<Row>)
    requires SpoolLock.Inv(w) && Survives(steps, p)
    requires InCall(PcOf(w, p), child, snapshot) || Handed(w, child, snapshot)
    ensures var v := SpoolLock.Run(w, steps); InCall(PcOf(v, p), child, snapshot) || Handed(v, child, snapshot)
    decreases |steps|
  {
    hide SpoolLock.Inv, SpoolLock.Next, InCall, Handed;
    if steps != [] {
      var q, step := steps[0].0, steps[0].1;
      SpoolLock.StepInv(w, q, step);
      if Handed(w, child, snapshot) {
        HandedStays(w, q, step, child, snapshot);
      } else if q == p {
        OwnStep(w, p, step, child, snapshot);
      } else {
        OtherStep(w, p, q, step);
      }
      HandoverCompletes(SpoolLock.Next(w, q, step), p, steps[1..], child, snapshot);
    }
  }

  /**
   * From any reachable world in which `p` is about to read the parent for an inherit: every directive then on record in
   * the parent has been delivered there, or the call is still under way, or the child's file knows its authority,
   * whatever any process does between the two locks and after.
   */
  lemma NothingLostBetweenLocks(before: seq<(Proc, Step)>, p: Proc, after: seq<(Proc, Step)>, row: Row)
    requires var w := SpoolLock.Run(NOTHING, before);
      && PcOf(w, p).Peeking? && PcOf(w, p).job.Snapshotting?
      && InSpool(File(w, PcOf(w, p).job.path), row)
      && SpoolSays(Pledge(row.authority, row.directive), File(w, PcOf(w, p).job.path))
    requires row.authority != "" && Strip(row.directive) != "" && Survives(after, p)
    ensures var w := SpoolLock.Run(NOTHING, before);
      var parent, child := File(w, PcOf(w, p).job.path), PcOf(w, p).job.child;
      var v := SpoolLock.Run(SpoolLock.Next(w, p, Load), after);
      || HasAuthority(parent.delivered, row.authority)
      || InCall(PcOf(v, p), child, Eligible(parent))
      || Known(File(v, child), row.authority)
  {
    hide SpoolLock.Inv, SpoolLock.Run, Known, File, HasAuthority, Eligible, InSpool, SpoolSays;
    var w := SpoolLock.Run(NOTHING, before);
    var path, child := PcOf(w, p).job.path, PcOf(w, p).job.child;
    var parent := File(w, path);
    SpoolRefinement.StartInv();
    SpoolRefinement.RunInv(NOTHING, before);
    var w1 := SpoolLock.Next(w, p, Load);
    SpoolLock.StepInv(w, p, Load);
    assert InCall(PcOf(w1, p), child, Eligible(parent));
    HandoverCompletes(w1, p, after, child, Eligible(parent));
    if !HasAuthority(parent.delivered, row.authority) {
      InSpoolKnown(parent, row);
      HandsOn(parent, Pledge(row.authority, row.directive), row.authority);
      SnapshotHas(Eligible(parent), row.authority);
    }
  }

  lemma SnapshotHas(rows: seq<Row>, a: string)
    requires HasAuthority(rows, a)
    ensures exists k :: 0 <= k < |rows| && rows[k].authority == a
  {
  }
}
