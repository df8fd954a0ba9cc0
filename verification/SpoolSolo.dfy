/** A call that meets no other: step by step through its locks to the effect it promises. */
module SpoolSolo {
  import opened Text
  import opened Spool
  import opened SpoolRuns
  import opened SpoolLock

  /** Steps of one process with nobody else at work. */
  function Alone(w: World, p: Proc, steps: seq<Step>): World
    decreases |steps|
  {
    if steps == [] then w else Alone(Next(w, p, steps[0]), p, steps[1..])
  }

  lemma AloneStep(w: World, p: Proc, step: Step, more: seq<Step>)
    ensures Alone(w, p, [step] + more) == Alone(Next(w, p, step), p, more)
  {
    hide Next;
    assert ([step] + more)[1..] == more;
  }

  lemma AloneDone(w: World, p: Proc)
    ensures Alone(w, p, []) == w
  {
  }

  /** The call is over: lock given back, process idle, and the file of `path` holds `s`; nothing else has changed. */
  ghost predicate Finished(w: World, v: World, p: Proc, path: string, s: Spool) {
    && v.locks == w.locks && PcOf(v, p) == Idle && File(v, path) == s
    && (forall q :: q != p ==> PcOf(v, q) == PcOf(w, q))
    && (forall x :: x != path ==> (x in v.files <==> x in w.files) && File(v, x) == File(w, x))
  }

  /** One lock section of a single operation, entered with the lock held and nothing loaded. */
  function SectionSteps(data: Spool, op: Op): seq<Step> {
    if Writes(data, op) then [Load] + ([Stage] + ([Commit] + ([Release([])] + [])))
    else [Load] + ([Quit] + ([Release([])] + []))
  }

  lemma SectionRuns(w: World, p: Proc, job: Job, base: Spool)
    requires job.Single? && PcOf(w, p) == Holding(job, base, job.op) && job.path in w.locks
    ensures var v := Alone(w, p, SectionSteps(File(w, job.path), job.op));
      && v.locks == w.locks - {job.path} && PcOf(v, p) == Idle
      && File(v, job.path) == Apply(File(w, job.path), job.path, job.op)
      && (forall q :: q != p ==> PcOf(v, q) == PcOf(w, q))
      && (forall x :: x != job.path ==> (x in v.files <==> x in w.files) && File(v, x) == File(w, x))
  {
    hide Alone, Writes, Apply, Eligible, Starts, Entered, SectionSteps;
    var data, op := File(w, job.path), job.op;
    SectionIs(data, op);
    var w1 := Next(w, p, Load);
    assert PcOf(w1, p) == Loaded(job, base, op, data);
    if Writes(data, op) {
      var w2 := Next(w1, p, Stage);
      var w3 := Next(w2, p, Commit);
      var w4 := Next(w3, p, Release([]));
      AloneStep(w, p, Load, [Stage] + ([Commit] + ([Release([])] + [])));
      AloneStep(w1, p, Stage, [Commit] + ([Release([])] + []));
      AloneStep(w2, p, Commit, [Release([])] + []);
      AloneStep(w3, p, Release([]), []);
      AloneDone(w4, p);
    } else {
      NoWriteSame(data, job.path, op);
      var w2 := Next(w1, p, Quit);
      var w3 := Next(w2, p, Release([]));
      AloneStep(w, p, Load, [Quit] + ([Release([])] + []));
      AloneStep(w1, p, Quit, [Release([])] + []);
      AloneStep(w2, p, Release([]), []);
      AloneDone(w3, p);
    }
  }

  lemma SectionIs(data: Spool, op: Op)
    ensures SectionSteps(data, op) ==
      if Writes(data, op) then [Load] + ([Stage] + ([Commit] + ([Release([])] + []))) else [Load] + ([Quit] + ([Release([])] + []))
  {
    hide Writes;
  }

  /** The lock is taken and nothing else has changed. */
  ghost predicate HasLock(w: World, v: World, p: Proc, path: string) {
    && v.files == w.files && v.locks == w.locks[path := p] && forall q :: q != p ==> PcOf(v, q) == PcOf(w, q)
  }

  /** A call that may start, or waits already, gets a free lock. */
  lemma Enters(w: World, p: Proc, job: Job, more: seq<Step>) returns (v: World)
    requires PcOf(w, p) == Idle && Starts(w, job) && job.path !in w.locks
    ensures HasLock(w, v, p, job.path) && PcOf(v, p) == Entered(job, File(w, job.path))
    ensures Alone(w, p, [Begin(job)] + ([Acquire] + more)) == Alone(v, p, more)
  {
    hide Alone, Entered, Starts, File;
    var w1 := Next(w, p, Begin(job));
    assert w1 == To(w, p, Wanting(job, 0));
    AloneStep(w, p, Begin(job), [Acquire] + more);
    v := Acquires(w1, p, job, more);
    SameFile(w, w1, job.path);
    assert forall q :: q != p ==> PcOf(w1, q) == PcOf(w, q);
  }

  lemma SameFile(w: World, v: World, path: string)
    requires w.files == v.files
    ensures File(w, path) == File(v, path)
  {
  }

  lemma Acquires(w: World, p: Proc, job: Job, more: seq<Step>) returns (v: World)
    requires PcOf(w, p) == Wanting(job, 0) && job.path !in w.locks
    ensures HasLock(w, v, p, job.path) && PcOf(v, p) == Entered(job, File(w, job.path))
    ensures Alone(w, p, [Acquire] + more) == Alone(v, p, more)
  {
    hide Alone, Entered, File;
    v := Next(w, p, Acquire);
    AloneStep(w, p, Acquire, more);
  }

  /** Giving the lock back restores the lock table. */
  lemma LockBack(w: World, v: World, p: Proc, path: string)
    requires HasLock(w, v, p, path) && path !in w.locks
    ensures v.locks - {path} == w.locks && path in v.locks
  {
  }

  /** The whole call. */
  function CallSteps(data: Spool, job: Job): seq<Step>
    requires job.Single?
  {
    [Begin(job)] + ([Acquire] + SectionSteps(data, job.op))
  }

  /**
   * A deposit, claim, mark, expiry or child write that finds its lock free does its operation on the file. Claiming,
   * marking and expiring need a file that exists.
   */
  lemma SingleCallWorks(w: World, p: Proc, path: string, op: Op)
    requires PcOf(w, p) == Idle && path !in w.locks && !op.OpConsume?
    requires op.OpClaim? || op.OpMark? || op.OpExpire? ==> path in w.files
    ensures Finished(w, Alone(w, p, CallSteps(File(w, path), Single(path, op))), p, path, Apply(File(w, path), path, op))
  {
    hide Alone, Writes, Apply, SectionSteps, File, Next;
    var job := Single(path, op);
    var v := Enters(w, p, job, SectionSteps(File(w, path), op));
    SameFile(w, v, path);
    LockBack(w, v, p, path);
    SectionRuns(v, p, job, File(w, path));
    SameOthers(w, v, path);
  }

  lemma SameOthers(w: World, v: World, path: string)
    requires w.files == v.files
    ensures forall x :: File(v, x) == File(w, x)
  {
  }

  function ConsumeSteps(data: Spool, job: Job): seq<Step>
    requires job.Consuming?
  {
    var mark := [Load] + ([Stage] + ([Commit] + ([Release([])] + [])));
    [Begin(job)] + ([Acquire] + ([Load] +
      if Claim(data, job.now, job.live.Alive?).1.Some? then [Stage] + ([Commit] + mark) else [Quit] + ([Release([])] + [])))
  }

  /** A consuming call of a dispatch that has not ended, on an existing file with its lock free, consumes. */
  lemma ConsumingCallWorks(w: World, p: Proc, path: string, live: Live, now: int, at: int, via: string, nonblocking: bool)
    requires PcOf(w, p) == Idle && path !in w.locks && path in w.files && (live.Alive? || live.Unknown?)
    ensures Finished(w, Alone(w, p, ConsumeSteps(File(w, path), Consuming(path, live, now, at, via, nonblocking))), p, path,
                     Consume(File(w, path), path, live, now, at, via).0)
  {
    hide Alone, Claim, Mark, Append, Expire, InheritInto, File, Next;
    var job, data := Consuming(path, live, now, at, via, nonblocking), File(w, path);
    var row := Claim(data, now, live.Alive?).1;
    var mark := [Load] + ([Stage] + ([Commit] + ([Release([])] + [])));
    var tail := if row.Some? then [Stage] + ([Commit] + mark) else [Quit] + ([Release([])] + []);
    var v := Enters(w, p, job, [Load] + tail);
    SameFile(w, v, path);
    SameOthers(w, v, path);
    LockBack(w, v, p, path);
    if row.None? {
      ClaimsNothing(v, p, job, data);
      SameOthers(v, Alone(v, p, [Load] + tail), path);
    } else {
      var u := ClaimRuns(v, p, job, data, mark);
      MarkRuns(u, p, job, data, row.value.entryId);
    }
  }

  lemma ClaimsNothing(w: World, p: Proc, job: Job, data: Spool)
    requires job.Consuming? && PcOf(w, p) == Holding(job, data, OpClaim(job.now, job.live.Alive?)) && job.path in w.locks
    requires File(w, job.path) == data && Claim(data, job.now, job.live.Alive?).1.None?
    ensures var v := Alone(w, p, [Load] + ([Quit] + ([Release([])] + [])));
      && v.locks == w.locks - {job.path} && PcOf(v, p) == Idle && v.files == w.files
      && (forall q :: q != p ==> PcOf(v, q) == PcOf(w, q))
  {
    hide Alone, Claim, Eligible, Starts, Entered, File;
    var w1 := Next(w, p, Load);
    var w2 := Next(w1, p, Quit);
    var w3 := Next(w2, p, Release([]));
    AloneStep(w, p, Load, [Quit] + ([Release([])] + []));
    AloneStep(w1, p, Quit, [Release([])] + []);
    AloneStep(w2, p, Release([]), []);
    AloneDone(w3, p);
  }

  lemma ClaimRuns(w: World, p: Proc, job: Job, data: Spool, more: seq<Step>) returns (v: World)
    requires job.Consuming? && PcOf(w, p) == Holding(job, data, OpClaim(job.now, job.live.Alive?)) && job.path in w.locks
    requires File(w, job.path) == data && Claim(data, job.now, job.live.Alive?).1.Some?
    ensures Alone(w, p, [Load] + ([Stage] + ([Commit] + more))) == Alone(v, p, more)
    ensures PcOf(v, p) == Holding(job, data, OpMark(Claim(data, job.now, job.live.Alive?).1.value.entryId, job.at, job.via))
    ensures v.locks == w.locks && File(v, job.path) == Claim(data, job.now, job.live.Alive?).0
    ensures (forall q :: q != p ==> PcOf(v, q) == PcOf(w, q))
    ensures forall x :: x != job.path ==> (x in v.files <==> x in w.files) && File(v, x) == File(w, x)
  {
    hide Alone, Claim, Eligible, Starts, Entered;
    var w1 := Next(w, p, Load);
    var w2 := Next(w1, p, Stage);
    v := Next(w2, p, Commit);
    AloneStep(w, p, Load, [Stage] + ([Commit] + more));
    AloneStep(w1, p, Stage, [Commit] + more);
    AloneStep(w2, p, Commit, more);
  }

  lemma MarkRuns(w: World, p: Proc, job: Job, base: Spool, entryId: string)
    requires job.Consuming? && PcOf(w, p) == Holding(job, base, OpMark(entryId, job.at, job.via)) && job.path in w.locks
    ensures var v := Alone(w, p, [Load] + ([Stage] + ([Commit] + ([Release([])] + []))));
      && v.locks == w.locks - {job.path} && PcOf(v, p) == Idle
      && File(v, job.path) == Mark(File(w, job.path), job.path, entryId, job.at, job.via)
      && (forall q :: q != p ==> PcOf(v, q) == PcOf(w, q))
      && (forall x :: x != job.path ==> (x in v.files <==> x in w.files) && File(v, x) == File(w, x))
  {
    hide Alone, Mark, Claim, Eligible, Starts, Entered;
    var data, op := File(w, job.path), OpMark(entryId, job.at, job.via);
    var w1 := Next(w, p, Load);
    assert PcOf(w1, p) == Loaded(job, base, op, data);
    var w2 := Next(w1, p, Stage);
    var w3 := Next(w2, p, Commit);
    var w4 := Next(w3, p, Release([]));
    AloneStep(w, p, Load, [Stage] + ([Commit] + ([Release([])] + [])));
    AloneStep(w1, p, Stage, [Commit] + ([Release([])] + []));
    AloneStep(w2, p, Commit, [Release([])] + []);
    AloneStep(w3, p, Release([]), []);
    AloneDone(w4, p);
  }

  function InheritSteps(w: World, job: Job, ids: seq<string>): seq<Step>
    requires job.Snapshotting?
  {
    var snapshot := Eligible(File(w, job.path));
    [Begin(job)] + ([Acquire] + ([Load] + ([Release(ids)] +
      if snapshot == [] then [] else [Acquire] + SectionSteps(File(w, job.child), OpInherit(snapshot, ids, job.now, job.path, job.via)))))
  }

  /** An inherit between two different dispatches with free locks takes the parent's eligible rows into the child. */
  lemma InheritingCallWorks(w: World, p: Proc, parent: string, child: string, now: int, via: string, ids: seq<string>)
    requires PcOf(w, p) == Idle && parent != child && parent !in w.locks && child !in w.locks
    requires |ids| == |Eligible(File(w, parent))|
    ensures var v := Alone(w, p, InheritSteps(w, Snapshotting(parent, child, now, via), ids));
      Finished(w, v, p, child, InheritInto(File(w, child), child, Eligible(File(w, parent)), ids, now, parent, via))
  {
    hide Alone, Writes, Eligible, SectionSteps, InheritInto, Claim, Mark, Append, Expire, Inherit, File, Next;
    var job, snapshot := Snapshotting(parent, child, now, via), Eligible(File(w, parent));
    var op := OpInherit(snapshot, ids, now, parent, via);
    var tail := if snapshot == [] then [] else [Acquire] + SectionSteps(File(w, child), op);
    var v := Enters(w, p, job, [Load] + ([Release(ids)] + tail));
    SameFile(w, v, parent);
    SameOthers(w, v, parent);
    LockBack(w, v, p, parent);
    var u := SnapshotRuns(v, p, job, File(w, parent), ids, tail);
    SameOthers(v, u, parent);
    if snapshot == [] {
      AloneDone(u, p);
      InheritsNothing(File(w, child), child, ids, now, parent, via);
    } else {
      var x := Acquires(u, p, Single(child, op), SectionSteps(File(w, child), op));
      SameOthers(u, x, child);
      LockBack(u, x, p, child);
      SectionRuns(x, p, Single(child, op), File(w, child));
    }
  }

  lemma SnapshotRuns(w: World, p: Proc, job: Job, base: Spool, ids: seq<string>, more: seq<Step>) returns (v: World)
    requires job.Snapshotting? && PcOf(w, p) == Peeking(job, base) && job.path in w.locks && File(w, job.path) == base
    requires |ids| == |Eligible(base)|
    ensures Alone(w, p, [Load] + ([Release(ids)] + more)) == Alone(v, p, more)
    ensures v.files == w.files && v.locks == w.locks - {job.path} && (forall q :: q != p ==> PcOf(v, q) == PcOf(w, q))
    ensures PcOf(v, p) == if Eligible(base) == [] then Idle
      else Wanting(Single(job.child, OpInherit(Eligible(base), ids, job.now, job.path, job.via)), 0)
  {
    hide Alone, Eligible, Starts, Entered, File;
    var w1 := Next(w, p, Load);
    v := Next(w1, p, Release(ids));
    AloneStep(w, p, Load, [Release(ids)] + more);
    AloneStep(w1, p, Release(ids), more);
  }

  lemma InheritsNothing(s: Spool, child: string, ids: seq<string>, now: int, parent: string, via: string)
    requires ids == []
    ensures InheritInto(s, child, [], ids, now, parent, via) == s
  {
  }
}
