/** The locked file protocol refines atomic operations, at the file and at the level of whole calls. */
module SpoolRefinement {
  import opened Text
  import opened Spool
  import opened SpoolRuns
  import opened SpoolLock

  const NOTHING := World(map[], map[], map[])

  lemma StartInv()
    ensures Inv(NOTHING)
  {
  }

  lemma {:induction false} RunInv(w: World, steps: seq<(Proc, Step)>)
    requires Inv(w)
    ensures Inv(Run(w, steps))
    decreases |steps|
  {
    hide Inv, Next;
    if steps != [] {
      StepInv(w, steps[0].0, steps[0].1);
      RunInv(Next(w, steps[0].0, steps[0].1), steps[1..]);
    }
  }

  /* ---------- locks ---------- */

  /** In every reachable world a lock has one holder, and a process holds one lock at most. */
  lemma LocksExclude(steps: seq<(Proc, Step)>, p: Proc, q: Proc, x: string, y: string)
    ensures var w := Run(NOTHING, steps);
      && (HeldBy(PcOf(w, p)) == Some(x) && HeldBy(PcOf(w, q)) == Some(x) ==> p == q)
      && (x in w.locks && y in w.locks && w.locks[x] == w.locks[y] ==> x == y)
  {
    hide Run, PcOk;
    StartInv();
    RunInv(NOTHING, steps);
    InvAt(Run(NOTHING, steps), p);
    InvAt(Run(NOTHING, steps), q);
  }

  /* ---------- files: every step is an atomic operation or nothing ---------- */

  function Effect(w: World, p: Proc, step: Step, path: string): seq<Op> {
    var pc := PcOf(w, p);
    if step.Commit? && pc.Staged? && pc.job.path == path then [pc.edit] else []
  }

  /** A step changes a file only by replacing it with the result of one operation on its current contents. */
  lemma StepRefines(w: World, p: Proc, step: Step, path: string)
    requires Inv(w)
    ensures File(Next(w, p, step), path) == Exec(File(w, path), path, Effect(w, p, step, path))
  {
    hide Inv, Apply, PcOk, Writes, Starts, Entered, Written, Left, Eligible;
    var pc := PcOf(w, p);
    if step.Commit? && pc.Staged? && pc.job.path == path {
      CommitInv(w, p);
      ExecOne(File(w, path), path, pc.edit);
    } else {
      assert Exec(File(w, path), path, []) == File(w, path);
    }
  }

  function Effects(w: World, steps: seq<(Proc, Step)>, path: string): seq<Op>
    decreases |steps|
  {
    if steps == [] then []
    else Effect(w, steps[0].0, steps[0].1, path) + Effects(Next(w, steps[0].0, steps[0].1), steps[1..], path)
  }

  /** Whatever the interleaving, a file's contents are those of a sequence of atomic operations on it. */
  lemma {:induction false} RunRefines(w: World, steps: seq<(Proc, Step)>, path: string)
    requires Inv(w)
    ensures File(Run(w, steps), path) == Exec(File(w, path), path, Effects(w, steps, path))
    decreases |steps|
  {
    hide Inv, Next, Effect, File;
    if steps == [] {
      assert Exec(File(w, path), path, []) == File(w, path);
    } else {
      var w' := Next(w, steps[0].0, steps[0].1);
      StepInv(w, steps[0].0, steps[0].1);
      StepRefines(w, steps[0].0, steps[0].1, path);
      RunRefines(w', steps[1..], path);
      ExecConcat(File(w, path), path, Effect(w, steps[0].0, steps[0].1, path), Effects(w', steps[1..], path));
    }
  }

  /** Rows survive every interleaving: with fresh ids each deposited row is in exactly one bucket, exactly once. */
  lemma ConcurrentRowsHeldOnce(steps: seq<(Proc, Step)>, path: string, deed: Deed)
    requires Distinct(IdsOf(Deposited(EMPTY, path, Effects(NOTHING, steps, path))))
    ensures var t := File(Run(NOTHING, steps), path);
      multiset(Deeds(t.pending))[deed] + multiset(Deeds(t.delivered))[deed] + multiset(Deeds(t.expired))[deed]
      == if deed in Deposited(EMPTY, path, Effects(NOTHING, steps, path)) then 1 else 0
  {
    hide Inv, Run, Effects, Deposited, Deeds, Exec;
    StartInv();
    RunRefines(NOTHING, steps, path);
    FreshRowsHeldOnce(path, Effects(NOTHING, steps, path), deed);
  }

  /* ---------- the unlocked reader ---------- */

  function ReadAck(s: Spool, entryId: string): (r: Option<Row>)
    ensures r.Some? ==> r.value.entryId == entryId && r.value in s.delivered
    ensures r.None? ==> forall k :: 0 <= k < |s.delivered| ==> s.delivered[k].entryId != entryId
  {
    var i := FirstId(s.delivered, entryId);
    if i < |s.delivered| then Some(s.delivered[i]) else None
  }

  lemma {:induction false} FirstIdPrefix(a: seq<Row>, b: seq<Row>, entryId: string)
    requires a <= b && FirstId(a, entryId) < |a|
    ensures FirstId(b, entryId) == FirstId(a, entryId)
  {
    if a[0].entryId != entryId {
      FirstIdPrefix(a[1..], b[1..], entryId);
    }
  }

  lemma {:induction false} RunSplit(w: World, a: seq<(Proc, Step)>, b: seq<(Proc, Step)>)
    ensures Run(w, a + b) == Run(Run(w, a), b)
    decreases |a|
  {
    hide Next;
    if a == [] {
      assert a + b == b;
    } else {
      assert (a + b)[1..] == a[1..] + b;
      RunSplit(Next(w, a[0].0, a[0].1), a[1..], b);
    }
  }

  /** An acknowledgement once seen by the reader that takes no lock is seen, unchanged, at every later moment. */
  lemma AckStays(before: seq<(Proc, Step)>, after: seq<(Proc, Step)>, path: string, entryId: string)
    requires ReadAck(File(Run(NOTHING, before), path), entryId).Some?
    ensures ReadAck(File(Run(NOTHING, before + after), path), entryId) == ReadAck(File(Run(NOTHING, before), path), entryId)
  {
    hide Inv, Run, Effects, Held, Deposited, Exec, File, FirstId;
    var w := Run(NOTHING, before);
    StartInv();
    RunInv(NOTHING, before);
    RunSplit(NOTHING, before, after);
    RunRefines(w, after, path);
    RunConserves(File(w, path), path, Effects(w, after, path));
    FirstIdPrefix(File(w, path).delivered, File(Run(w, after), path).delivered, entryId);
  }

  /* ---------- calls: what a lock section amounts to ---------- */

  /** The file as lock holders agree on it: its contents when the current holder, if any, took the lock. */
  function Settled(w: World, path: string): Spool {
    if path in w.locks && HeldBy(PcOf(w, w.locks[path])) == Some(path) then PcOf(w, w.locks[path]).base else File(w, path)
  }

  function JobOps(job: Job): seq<Op> {
    match job
    case Single(_, op) => [op]
    case Consuming(_, live, now, at, via, _) => [OpConsume(live, now, at, via)]
    case Snapshotting(_, _, _, _) => []
  }

  /** What an abandoned call leaves behind: nothing, a claim, or all of it. */
  function Partial(pc: PC): seq<Op>
    requires HeldBy(pc).Some?
  {
    if pc.Leaving? then JobOps(pc.job)
    else if !pc.Peeking? && pc.job.Consuming? && pc.edit.OpMark? then [OpClaim(pc.job.now, pc.job.live.Alive?)]
    else []
  }

  /** The operation that becomes settled when a lock is given up. */
  function Settles(w: World, p: Proc, step: Step, path: string): seq<Op> {
    var pc := PcOf(w, p);
    if HeldBy(pc) != Some(path) then []
    else if step.Fail? then Partial(pc)
    else if step.Release? && pc.Leaving? && |step.ids| == |pc.snapshot| then JobOps(pc.job)
    else []
  }

  lemma WholeCallIs(job: Job, base: Spool)
    ensures WholeCall(job, base) == Exec(base, job.path, JobOps(job))
  {
    hide Claim, Mark, Consume, Append, Expire, InheritInto;
    match job
    case Single(path, op) => ExecOne(base, path, op);
    case Consuming(path, live, now, at, via, _) => ExecOne(base, path, OpConsume(live, now, at, via));
    case Snapshotting(_, _, _, _) =>
  }

  lemma PartialIs(pc: PC, file: Spool)
    requires HeldBy(pc).Some? && PcOk(pc, file)
    ensures file == Exec(pc.base, pc.job.path, Partial(pc))
  {
    hide Claim, Mark, Consume, Append, Expire, InheritInto, Eligible, WholeCall, Writes;
    if pc.Leaving? {
      WholeCallIs(pc.job, pc.base);
    } else if !pc.Peeking? && pc.job.Consuming? && pc.edit.OpMark? {
      ExecOne(pc.base, pc.job.path, OpClaim(pc.job.now, pc.job.live.Alive?));
    } else {
      assert Exec(pc.base, pc.job.path, []) == pc.base;
    }
  }

  /** The base a process works from never changes while it holds the lock. */
  lemma BaseStays(w: World, p: Proc, step: Step)
    requires HeldBy(PcOf(w, p)).Some? && HeldBy(PcOf(Next(w, p, step), p)).Some?
    ensures PcOf(Next(w, p, step), p).base == PcOf(w, p).base && PcOf(Next(w, p, step), p).job == PcOf(w, p).job
  {
    hide Apply, Writes, Starts, Eligible, Claim;
  }

  lemma NextLocks(w: World, p: Proc, step: Step, path: string)
    requires Inv(w) && HeldBy(PcOf(w, p)) != Some(path)
    ensures var w' := Next(w, p, step);
      || ((path in w.locks <==> path in w'.locks) && (path in w.locks ==> w'.locks[path] == w.locks[path] && w.locks[path] != p))
      || (path !in w.locks && path in w'.locks && w'.locks[path] == p && PcOf(w, p).Wanting? && PcOf(w, p).job.path == path
          && PcOf(w', p) == Entered(PcOf(w, p).job, File(w, path)))
  {
    hide Apply, Writes, Starts, Eligible, PcOk, Entered, Written, Left, File;
    InvAt(w, p);
    if path in w.locks { InvAt(w, w.locks[path]); }
  }

  lemma NextFiles(w: World, p: Proc, step: Step, path: string)
    requires HeldBy(PcOf(w, p)) != Some(path)
    ensures File(Next(w, p, step), path) == File(w, path)
    ensures forall q :: q != p ==> PcOf(Next(w, p, step), q) == PcOf(w, q)
  {
    hide Apply, Writes, Starts, Eligible, Entered, Written, Left;
  }

  lemma EnteredBase(job: Job, base: Spool)
    ensures HeldBy(Entered(job, base)) == Some(job.path) && Entered(job, base).base == base
  {
  }

  lemma SettledHeld(w: World, p: Proc)
    requires Inv(w) && HeldBy(PcOf(w, p)).Some?
    ensures Settled(w, HeldBy(PcOf(w, p)).value) == PcOf(w, p).base
  {
    hide PcOk, File;
    InvAt(w, p);
  }

  /** A step of a process that does not hold the file's lock leaves the settled contents. */
  lemma OthersSettle(w: World, p: Proc, step: Step, path: string)
    requires Inv(w) && HeldBy(PcOf(w, p)) != Some(path)
    ensures Settled(Next(w, p, step), path) == Settled(w, path)
  {
    hide Next, PcOk, Entered, File;
    var w' := Next(w, p, step);
    StepInv(w, p, step);
    NextLocks(w, p, step, path);
    NextFiles(w, p, step, path);
    if path !in w.locks && path in w'.locks {
      EnteredBase(PcOf(w, p).job, File(w, path));
    }
  }

  /** What the lock's holder settles by giving up the lock. */
  lemma GivingUpSettles(w: World, p: Proc, step: Step, path: string)
    requires Inv(w) && HeldBy(PcOf(w, p)) == Some(path)
    requires step.Fail? || (step.Release? && PcOf(w, p).Leaving? && |step.ids| == |PcOf(w, p).snapshot|)
    ensures Settled(Next(w, p, step), path) == Exec(Settled(w, path), path, Settles(w, p, step, path))
  {
    hide Exec, PcOk, Left, Partial, JobOps;
    var pc, w' := PcOf(w, p), Next(w, p, step);
    SettledHeld(w, p);
    InvAt(w, p);
    PartialIs(pc, File(w, path));
    assert path !in w'.locks && File(w', path) == File(w, path);
    if pc.Leaving? { PartialLeaving(pc); }
  }

  /** Until then the settled contents stay. */
  lemma HoldingSettles(w: World, p: Proc, step: Step, path: string)
    requires Inv(w) && HeldBy(PcOf(w, p)) == Some(path) && !step.Fail?
    requires !(step.Release? && PcOf(w, p).Leaving? && |step.ids| == |PcOf(w, p).snapshot|)
    ensures Settled(Next(w, p, step), path) == Settled(w, path)
  {
    hide Next, PcOk, Inv, File;
    StepInv(w, p, step);
    SettledHeld(w, p);
    StillHeld(w, p, step);
    BaseStays(w, p, step);
    SettledHeld(Next(w, p, step), p);
  }

  lemma HolderSettles(w: World, p: Proc, step: Step, path: string)
    requires Inv(w) && HeldBy(PcOf(w, p)) == Some(path)
    ensures Settled(Next(w, p, step), path) == Exec(Settled(w, path), path, Settles(w, p, step, path))
  {
    hide Next, PcOk, Inv, File, Settled, Partial, JobOps;
    if step.Fail? || (step.Release? && PcOf(w, p).Leaving? && |step.ids| == |PcOf(w, p).snapshot|) {
      GivingUpSettles(w, p, step, path);
    } else {
      HoldingSettles(w, p, step, path);
      assert Exec(Settled(w, path), path, []) == Settled(w, path);
    }
  }

  lemma PartialLeaving(pc: PC)
    requires pc.Leaving?
    ensures Partial(pc) == JobOps(pc.job)
  {
  }

  lemma StillHeld(w: World, p: Proc, step: Step)
    requires HeldBy(PcOf(w, p)).Some? && !step.Fail?
    requires !(step.Release? && PcOf(w, p).Leaving? && |step.ids| == |PcOf(w, p).snapshot|)
    ensures HeldBy(PcOf(Next(w, p, step), p)).Some?
  {
    hide Apply, Writes, Starts, Eligible, Claim;
  }

  function SettledOps(w: World, steps: seq<(Proc, Step)>, path: string): seq<Op>
    decreases |steps|
  {
    if steps == [] then []
    else Settles(w, steps[0].0, steps[0].1, path) + SettledOps(Next(w, steps[0].0, steps[0].1), steps[1..], path)
  }

  /**
   * Whole calls are atomic: what lock holders see of a file is the result of running complete calls one after
   * another, a consuming call as one claim-and-mark; only a call that dies between its two writes leaves a bare claim.
   */
  lemma {:induction false} CallsAreAtomic(w: World, steps: seq<(Proc, Step)>, path: string)
    requires Inv(w)
    ensures Settled(Run(w, steps), path) == Exec(Settled(w, path), path, SettledOps(w, steps, path))
    decreases |steps|
  {
    hide Inv, Next, Settles, Settled;
    if steps == [] {
      assert Exec(Settled(w, path), path, []) == Settled(w, path);
    } else {
      var p, step := steps[0].0, steps[0].1;
      var w' := Next(w, p, step);
      StepInv(w, p, step);
      StepSettles(w, p, step, path);
      CallsAreAtomic(w', steps[1..], path);
      ExecConcat(Settled(w, path), path, Settles(w, p, step, path), SettledOps(w', steps[1..], path));
    }
  }

  lemma StepSettles(w: World, p: Proc, step: Step, path: string)
    requires Inv(w)
    ensures Settled(Next(w, p, step), path) == Exec(Settled(w, path), path, Settles(w, p, step, path))
  {
    hide Inv, Next, Settled;
    if HeldBy(PcOf(w, p)) == Some(path) {
      HolderSettles(w, p, step, path);
    } else {
      OthersSettle(w, p, step, path);
      assert Exec(Settled(w, path), path, []) == Settled(w, path);
    }
  }
}
