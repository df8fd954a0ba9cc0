/** A non-blocking call that finds the lock taken: it gives up after three attempts and leaves no trace. */
module SpoolBusy {
  import opened Text
  import opened Spool
  import opened SpoolRuns
  import opened SpoolLock
  import opened SpoolRefinement

  predicate Tries(job: Job) {
    job.Consuming? && job.nonblocking
  }

  /** The process is idle or waits for the lock of a non-blocking call. */
  predicate Waits(pc: PC) {
    pc.Idle? || (pc.Wanting? && Tries(pc.job))
  }

  /** All that `p` does in the run is to begin non-blocking calls and to be refused the lock. */
  predicate OnlyRefused(steps: seq<(Proc, Step)>, p: Proc) {
    forall i :: 0 <= i < |steps| && steps[i].0 == p ==> Refusal(steps[i].1)
  }

  predicate Refusal(step: Step) {
    step.Busy? || (step.Begin? && Tries(step.job))
  }

  /** The run without the steps of `p`. */
  function Without(steps: seq<(Proc, Step)>, p: Proc): seq<(Proc, Step)> {
    if steps == [] then [] else (if steps[0].0 == p then [] else [steps[0]]) + Without(steps[1..], p)
  }

  /** The same world to everyone but `p`. */
  ghost predicate Alike(w: World, v: World, p: Proc) {
    w.files == v.files && w.locks == v.locks && forall q :: q != p ==> PcOf(w, q) == PcOf(v, q)
  }

  lemma OthersAlike(w: World, v: World, p: Proc, q: Proc, step: Step)
    requires Alike(w, v, p) && q != p
    ensures Alike(Next(w, q, step), Next(v, q, step), p) && PcOf(Next(w, q, step), p) == PcOf(w, p)
  {
    hide Apply, Writes, Eligible, Entered, Written, Left, File, Starts;
    assert PcOf(w, q) == PcOf(v, q);
    SameReads(w, v);
    var a, b := Next(w, q, step), Next(v, q, step);
    forall r | r != p ensures PcOf(a, r) == PcOf(b, r) {
      assert PcOf(w, r) == PcOf(v, r);
    }
  }

  lemma SameReads(w: World, v: World)
    requires w.files == v.files
    ensures (forall path :: File(w, path) == File(v, path)) && (forall job :: Starts(w, job) == Starts(v, job))
  {
  }

  lemma SameEffects(w: World, v: World, p: Proc, q: Proc, step: Step, path: string)
    requires Alike(w, v, p) && q != p
    ensures Effect(w, q, step, path) == Effect(v, q, step, path) && Settles(w, q, step, path) == Settles(v, q, step, path)
  {
    hide Partial, JobOps;
  }

  lemma RefusedAlike(w: World, v: World, p: Proc, step: Step, path: string)
    requires Alike(w, v, p) && Waits(PcOf(w, p)) && Refusal(step)
    ensures Alike(Next(w, p, step), v, p) && Waits(PcOf(Next(w, p, step), p))
    ensures Effect(w, p, step, path) == [] && Settles(w, p, step, path) == []
  {
    hide Starts, Partial;
  }

  lemma {:induction false} AlikeRun(w: World, v: World, p: Proc, steps: seq<(Proc, Step)>, path: string)
    requires Alike(w, v, p) && Waits(PcOf(w, p)) && OnlyRefused(steps, p)
    ensures Alike(Run(w, steps), Run(v, Without(steps, p)), p) && Waits(PcOf(Run(w, steps), p))
    ensures Effects(w, steps, path) == Effects(v, Without(steps, p), path)
    ensures SettledOps(w, steps, path) == SettledOps(v, Without(steps, p), path)
    decreases |steps|
  {
    hide Next, Effect, Settles, Alike, Waits, Refusal;
    if steps != [] {
      var q, step := steps[0].0, steps[0].1;
      var rest := Without(steps[1..], p);
      if q == p {
        RefusedAlike(w, v, p, step, path);
        AlikeRun(Next(w, q, step), v, p, steps[1..], path);
        assert Without(steps, p) == rest;
      } else {
        OthersAlike(w, v, p, q, step);
        SameEffects(w, v, p, q, step, path);
        AlikeRun(Next(w, q, step), Next(v, q, step), p, steps[1..], path);
        assert Without(steps, p) == [steps[0]] + rest && ([steps[0]] + rest)[1..] == rest;
      }
    }
  }

  /**
   * Calls that are only ever refused are invisible: leaving them out of the run gives every other process, every
   * lock and every file the same history and the same end, and the files the same operations.
   */
  lemma RefusedCallsLeaveNoTrace(w: World, p: Proc, steps: seq<(Proc, Step)>, path: string)
    requires Waits(PcOf(w, p)) && OnlyRefused(steps, p)
    ensures var a, b := Run(w, steps), Run(w, Without(steps, p));
      && a.files == b.files && a.locks == b.locks && (forall q :: q != p ==> PcOf(a, q) == PcOf(b, q))
      && Effects(w, steps, path) == Effects(w, Without(steps, p), path)
      && SettledOps(w, steps, path) == SettledOps(w, Without(steps, p), path)
  {
    AlikeRun(w, w, p, steps, path);
  }

  /* ---------- three attempts ---------- */

  /** How often `p`, waiting for a lock, finds it taken. */
  function Refusals(w: World, p: Proc, steps: seq<(Proc, Step)>): nat
    decreases |steps|
  {
    if steps == [] then 0
    else
      var pc := PcOf(w, p);
      (if steps[0] == (p, Busy) && pc.Wanting? && Tries(pc.job) && pc.job.path in w.locks then 1 else 0)
      + Refusals(Next(w, steps[0].0, steps[0].1), p, steps[1..])
  }

  predicate OnlyBusy(steps: seq<(Proc, Step)>, p: Proc) {
    forall i :: 0 <= i < |steps| && steps[i].0 == p ==> steps[i].1 == Busy
  }

  lemma BusyStep(w: World, p: Proc, job: Job, tries: nat)
    requires PcOf(w, p) == Wanting(job, tries) && Tries(job) && tries < LOCK_ATTEMPTS
    ensures PcOf(Next(w, p, Busy), p) ==
      if job.path !in w.locks then PcOf(w, p) else if tries + 1 < LOCK_ATTEMPTS then Wanting(job, tries + 1) else Idle
  {
  }

  lemma OthersLeavePc(w: World, p: Proc, q: Proc, step: Step)
    requires q != p
    ensures PcOf(Next(w, q, step), p) == PcOf(w, p)
  {
    hide Apply, Writes, Starts, Eligible, Entered, Written, Left;
  }

  lemma {:induction false} IdleStays(w: World, p: Proc, steps: seq<(Proc, Step)>)
    requires PcOf(w, p) == Idle && OnlyBusy(steps, p)
    ensures PcOf(Run(w, steps), p) == Idle && Refusals(w, p, steps) == 0
    decreases |steps|
  {
    if steps != [] {
      var q, step := steps[0].0, steps[0].1;
      if q == p {
        assert Next(w, q, step) == w;
      } else {
        OthersLeavePc(w, p, q, step);
      }
      hide Next;
      IdleStays(Next(w, q, step), p, steps[1..]);
    }
  }

  /** Whatever the others do in between, a non-blocking call that is only refused is over at its third refusal, not before. */
  lemma {:induction false} GivesUpAtThird(w: World, p: Proc, job: Job, tries: nat, steps: seq<(Proc, Step)>)
    requires PcOf(w, p) == Wanting(job, tries) && Tries(job) && tries < 3 && OnlyBusy(steps, p)
    ensures tries + Refusals(w, p, steps) <= 3
    ensures PcOf(Run(w, steps), p) == if tries + Refusals(w, p, steps) == 3 then Idle else Wanting(job, tries + Refusals(w, p, steps))
    decreases |steps|
  {
    hide Next;
    if steps != [] {
      var q, step := steps[0].0, steps[0].1;
      var w' := Next(w, q, step);
      if q != p {
        OthersLeavePc(w, p, q, step);
        GivesUpAtThird(w', p, job, tries, steps[1..]);
      } else {
        BusyStep(w, p, job, tries);
        if job.path !in w.locks {
          GivesUpAtThird(w', p, job, tries, steps[1..]);
        } else if tries + 1 < 3 {
          GivesUpAtThird(w', p, job, tries + 1, steps[1..]);
        } else {
          IdleStays(w', p, steps[1..]);
        }
      }
    }
  }
}
