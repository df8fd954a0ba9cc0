/**
 * Many processes on the spool files, at the grain of lock, load, stage and `os.replace`: the machine the
 * operating system runs, and the atomic operations it amounts to.
 */
module SpoolLock {
  import opened Text
  import opened Spool
  import opened SpoolRuns

  const LOCK_ATTEMPTS := 3

  type Proc = nat

  /** One call; `path` is the file's mapped name and stands for the dispatch. */
  datatype Job =
    | Single(path: string, op: Op)
    | Consuming(path: string, live: Live, now: int, at: int, via: string, nonblocking: bool)
    | Snapshotting(path: string, child: string, now: int, via: string)

  /** Where a process is; `base` is a history variable, the file's contents when the lock was taken. */
  datatype PC =
    | Idle
    | Wanting(job: Job, tries: nat)
    | Peeking(job: Job, base: Spool)
    | Holding(job: Job, base: Spool, edit: Op)
    | Loaded(job: Job, base: Spool, edit: Op, data: Spool)
    | Staged(job: Job, base: Spool, edit: Op, data: Spool, out: Spool)
    | Leaving(job: Job, base: Spool, snapshot: seq<Row>)

  datatype World = World(files: map<string, Spool>, locks: map<string, Proc>, pcs: map<Proc, PC>)

  datatype Step =
    | Begin(job: Job)
    | Acquire
    | Busy
    | Load
    | Stage
    | Quit
    | Commit
    | Fail
    | Release(ids: seq<string>)

  function PcOf(w: World, p: Proc): PC {
    if p in w.pcs then w.pcs[p] else Idle
  }

  /** What an unlocked or a locked reader of the file gets. */
  function File(w: World, path: string): Spool {
    if path in w.files then w.files[path] else EMPTY
  }

  function HeldBy(pc: PC): Option<string> {
    if pc.Idle? || pc.Wanting? then None else Some(pc.job.path)
  }

  function To(w: World, p: Proc, pc: PC): World {
    w.(pcs := w.pcs[p := pc])
  }

  function Unlock(w: World, p: Proc, path: string, pc: PC): World {
    World(w.files, w.locks - {path}, w.pcs[p := pc])
  }

  /** Whether an operation rewrites the file it loaded. */
  predicate Writes(data: Spool, op: Op) {
    match op
    case OpClaim(now, allow) => Claim(data, now, allow).1.Some?
    case OpMark(_, _, _) => true
    case OpConsume(_, _, _, _) => true
    case OpExpire(_, _) => data.pending != []
    case OpAppend(row) => !HasAuthority(data.pending, row.authority)
    case OpInherit(snapshot, ids, now, parent, via) =>
      |ids| == |snapshot| && Inherit(data, snapshot, ids, now, parent, via).pending != data.pending
  }

  /** Calls that return at once, before taking any lock. */
  predicate Starts(w: World, job: Job) {
    match job
    case Single(path, op) => !op.OpConsume? && (op.OpClaim? || op.OpMark? || op.OpExpire? ==> path in w.files)
    case Consuming(path, live, _, _, _, _) => !live.Ended? && path in w.files
    case Snapshotting(parent, child, _, _) => parent != child
  }

  function FirstEdit(job: Job): Op
    requires !job.Snapshotting?
  {
    if job.Single? then job.op else OpClaim(job.now, job.live.Alive?)
  }

  function Entered(job: Job, base: Spool): PC {
    if job.Snapshotting? then Peeking(job, base) else Holding(job, base, FirstEdit(job))
  }

  /** After a write: a consuming call goes on to mark the row it has claimed. */
  function Written(job: Job, base: Spool, edit: Op, data: Spool): PC {
    if job.Consuming? && edit.OpClaim? && Claim(data, edit.now, edit.allowExpired).1.Some?
    then Holding(job, base, OpMark(Claim(data, edit.now, edit.allowExpired).1.value.entryId, job.at, job.via))
    else Leaving(job, base, [])
  }

  /** After a release: a snapshot taken from the parent is carried over to the child's file. */
  function Left(job: Job, snapshot: seq<Row>, ids: seq<string>): PC {
    if job.Snapshotting? && snapshot != []
    then Wanting(Single(job.child, OpInherit(snapshot, ids, job.now, job.path, job.via)), 0)
    else Idle
  }

  /** One step of process `p`; a step that is not enabled leaves the world as it is. */
  function Next(w: World, p: Proc, step: Step): World {
    var pc := PcOf(w, p);
    match step
    case Begin(job) =>
      if pc.Idle? && Starts(w, job) then To(w, p, Wanting(job, 0)) else w
    case Acquire =>
      if pc.Wanting? && pc.job.path !in w.locks
      then World(w.files, w.locks[pc.job.path := p], w.pcs[p := Entered(pc.job, File(w, pc.job.path))])
      else w
    case Busy =>
      if pc.Wanting? && pc.job.Consuming? && pc.job.nonblocking && pc.job.path in w.locks
      then To(w, p, if pc.tries + 1 < LOCK_ATTEMPTS then Wanting(pc.job, pc.tries + 1) else Idle)
      else w
    case Load =>
      if pc.Holding? then To(w, p, Loaded(pc.job, pc.base, pc.edit, File(w, pc.job.path)))
      else if pc.Peeking? then To(w, p, Leaving(pc.job, pc.base, Eligible(File(w, pc.job.path))))
      else w
    case Quit =>
      if pc.Loaded? && !Writes(pc.data, pc.edit) then To(w, p, Leaving(pc.job, pc.base, [])) else w
    case Stage =>
      if pc.Loaded? && Writes(pc.data, pc.edit)
      then To(w, p, Staged(pc.job, pc.base, pc.edit, pc.data, Apply(pc.data, pc.job.path, pc.edit)))
      else w
    case Commit =>
      if pc.Staged?
      then World(w.files[pc.job.path := pc.out], w.locks, w.pcs[p := Written(pc.job, pc.base, pc.edit, pc.data)])
      else w
    case Fail =>
      if pc.Idle? then w
      else if pc.Wanting? then To(w, p, Idle)
      else Unlock(w, p, pc.job.path, Idle)
    case Release(ids) =>
      if pc.Leaving? && |ids| == |pc.snapshot| then Unlock(w, p, pc.job.path, Left(pc.job, pc.snapshot, ids)) else w
  }

  function Run(w: World, steps: seq<(Proc, Step)>): World
    decreases |steps|
  {
    if steps == [] then w else Run(Next(w, steps[0].0, steps[0].1), steps[1..])
  }

  /* ---------- the invariant ---------- */

  /** The whole effect of a call on the file it locks. */
  function WholeCall(job: Job, base: Spool): Spool {
    match job
    case Single(path, op) => Apply(base, path, op)
    case Consuming(path, live, now, at, via, _) => Consume(base, path, live, now, at, via).0
    case Snapshotting(_, _, _, _) => base
  }

  /** Where a call stands between its edits: `edit` comes next and finds `file`. */
  predicate Between(job: Job, base: Spool, file: Spool, edit: Op) {
    match job
    case Single(_, op) => file == base && edit == op && !op.OpConsume?
    case Consuming(_, live, now, at, via, _) =>
      && !live.Ended?
      && (|| (file == base && edit == OpClaim(now, live.Alive?))
          || (var (c, row) := Claim(base, now, live.Alive?);
              row.Some? && file == c && edit == OpMark(row.value.entryId, at, via)))
    case Snapshotting(_, _, _, _) => false
  }

  predicate PcOk(pc: PC, file: Spool) {
    match pc
    case Idle => true
    case Wanting(job, tries) => tries < LOCK_ATTEMPTS && (job.Single? ==> !job.op.OpConsume?) && (job.Consuming? ==> !job.live.Ended?)
    case Peeking(job, base) => job.Snapshotting? && file == base
    case Holding(job, base, edit) => Between(job, base, file, edit)
    case Loaded(job, base, edit, data) => Between(job, base, file, edit) && data == file
    case Staged(job, base, edit, data, out) =>
      Between(job, base, file, edit) && data == file && Writes(file, edit) && out == Apply(file, job.path, edit)
    case Leaving(job, base, snapshot) =>
      file == WholeCall(job, base) && (job.Snapshotting? ==> snapshot == Eligible(base))
  }

  predicate ProcOk(w: World, p: Proc) {
    var pc := PcOf(w, p);
    && (HeldBy(pc).Some? ==> HeldBy(pc).value in w.locks && w.locks[HeldBy(pc).value] == p)
    && (pc.Idle? || PcOk(pc, File(w, pc.job.path)))
  }

  ghost predicate Inv(w: World) {
    && (forall p :: ProcOk(w, p))
    && (forall path :: path in w.locks ==> HeldBy(PcOf(w, w.locks[path])) == Some(path))
  }

  lemma InvAt(w: World, p: Proc)
    requires Inv(w)
    ensures ProcOk(w, p)
  {
  }

  lemma NoWriteSame(data: Spool, id: string, op: Op)
    requires !Writes(data, op)
    ensures Apply(data, id, op) == data
  {
    hide Inherit, HasAuthority;
  }

  /** What `w'` may differ in from `w` after a step of `p`. */
  ghost predicate OnlyTouches(w: World, w': World, p: Proc, path: string) {
    && (forall q :: q != p ==> PcOf(w', q) == PcOf(w, q))
    && (forall x :: x != path ==> File(w', x) == File(w, x))
    && (forall x :: x != path ==> (x in w'.locks <==> x in w.locks) && (x in w.locks ==> w'.locks[x] == w.locks[x]))
    && (path in w.locks && w.locks[path] != p ==> path in w'.locks && w'.locks[path] == w.locks[path] && File(w', path) == File(w, path))
  }

  /** Other processes do not notice a step that touches no file another process has locked. */
  lemma OthersOk(w: World, w': World, p: Proc, path: string, q: Proc)
    requires Inv(w) && OnlyTouches(w, w', p, path) && q != p
    requires path !in w.locks ==> File(w', path) == File(w, path)
    ensures ProcOk(w', q)
  {
    hide PcOk, File;
    InvAt(w, q);
    var pc := PcOf(w, q);
    assert PcOf(w', q) == pc;
    if HeldBy(pc).Some? {
      assert w.locks[HeldBy(pc).value] == q;
    } else if pc.Wanting? {
      WantingOk(pc, File(w, pc.job.path), File(w', pc.job.path));
    }
  }

  lemma WantingOk(pc: PC, f: Spool, g: Spool)
    requires pc.Wanting? && PcOk(pc, f)
    ensures PcOk(pc, g)
  {
  }

  lemma ToTouches(w: World, p: Proc, pc: PC, path: string)
    ensures OnlyTouches(w, To(w, p, pc), p, path)
  {
  }

  /** A process that moves on without changing locks or files. */
  lemma MovesOn(w: World, p: Proc, pc: PC)
    requires Inv(w) && HeldBy(pc) == HeldBy(PcOf(w, p)) && (pc.Idle? || PcOk(pc, File(w, pc.job.path)))
    ensures Inv(To(w, p, pc))
  {
    hide PcOk, File;
    var w' := To(w, p, pc);
    ToTouches(w, p, pc, "");
    assert forall x :: File(w', x) == File(w, x) by { SameFiles(w, p, pc); }
    forall q ensures ProcOk(w', q) {
      InvAt(w, p);
      if q != p { OthersOk(w, w', p, "", q); }
    }
    forall path | path in w'.locks ensures HeldBy(PcOf(w', w'.locks[path])) == Some(path) {
      assert HeldBy(PcOf(w, w.locks[path])) == Some(path);
    }
  }

  lemma SameFiles(w: World, p: Proc, pc: PC)
    ensures forall x :: File(To(w, p, pc), x) == File(w, x)
  {
  }

  lemma EnterOk(job: Job, base: Spool, tries: nat)
    requires PcOk(Wanting(job, tries), base)
    ensures PcOk(Entered(job, base), base) && HeldBy(Entered(job, base)) == Some(job.path)
  {
  }

  lemma AcquireInv(w: World, p: Proc)
    requires Inv(w) && PcOf(w, p).Wanting? && PcOf(w, p).job.path !in w.locks
    ensures Inv(Next(w, p, Acquire))
  {
    hide PcOk, Entered, HeldBy;
    var w', pc := Next(w, p, Acquire), PcOf(w, p);
    var path := pc.job.path;
    InvAt(w, p);
    EnterOk(pc.job, File(w, path), pc.tries);
    WantingHolds(pc);
    assert OnlyTouches(w, w', p, path);
    assert PcOf(w', p) == Entered(pc.job, File(w, path));
    EnteredJob(pc.job, File(w, path));
    forall q ensures ProcOk(w', q) {
      if q != p { OthersOk(w, w', p, path, q); }
    }
    forall x | x in w'.locks ensures HeldBy(PcOf(w', w'.locks[x])) == Some(x) {
      if x != path {
        assert HeldBy(PcOf(w, w.locks[x])) == Some(x);
      }
    }
  }

  lemma EnteredJob(job: Job, base: Spool)
    ensures !Entered(job, base).Idle? && Entered(job, base).job == job
  {
  }

  lemma WantingHolds(pc: PC)
    requires pc.Wanting?
    ensures HeldBy(pc) == None
  {
  }

  lemma LeaveInv(w: World, p: Proc, pc': PC)
    requires Inv(w) && HeldBy(PcOf(w, p)).Some? && HeldBy(pc').None? && (forall f :: PcOk(pc', f))
    ensures Inv(Unlock(w, p, HeldBy(PcOf(w, p)).value, pc'))
  {
    hide PcOk;
    var path := HeldBy(PcOf(w, p)).value;
    var w' := Unlock(w, p, path, pc');
    InvAt(w, p);
    assert OnlyTouches(w, w', p, path);
    forall q ensures ProcOk(w', q) {
      if q != p { OthersOk(w, w', p, path, q); }
    }
    forall x | x in w'.locks ensures HeldBy(PcOf(w', w'.locks[x])) == Some(x) {
      assert HeldBy(PcOf(w, w.locks[x])) == Some(x);
    }
  }

  /** The edit just written brings the call to its next stage. */
  lemma WrittenOk(job: Job, base: Spool, edit: Op, data: Spool)
    requires Between(job, base, data, edit) && Writes(data, edit)
    ensures PcOk(Written(job, base, edit, data), Apply(data, job.path, edit))
    ensures HeldBy(Written(job, base, edit, data)) == Some(job.path)
  {
    hide Claim, Mark, Inherit, Append, Expire;
  }

  lemma CommitInv(w: World, p: Proc)
    requires Inv(w) && PcOf(w, p).Staged?
    ensures Inv(Next(w, p, Commit))
    ensures File(Next(w, p, Commit), PcOf(w, p).job.path) == Apply(File(w, PcOf(w, p).job.path), PcOf(w, p).job.path, PcOf(w, p).edit)
  {
    hide Between, Writes, Apply, Written;
    var w', pc := Next(w, p, Commit), PcOf(w, p);
    var path := pc.job.path;
    InvAt(w, p);
    WrittenOk(pc.job, pc.base, pc.edit, pc.data);
    var pc' := Written(pc.job, pc.base, pc.edit, pc.data);
    WrittenJob(pc.job, pc.base, pc.edit, pc.data);
    assert OnlyTouches(w, w', p, path);
    assert PcOf(w', p) == pc';
    hide PcOk;
    forall q ensures ProcOk(w', q) {
      if q != p { OthersOk(w, w', p, path, q); }
    }
    forall x | x in w'.locks ensures HeldBy(PcOf(w', w'.locks[x])) == Some(x) {
      assert HeldBy(PcOf(w, w.locks[x])) == Some(x);
    }
  }

  lemma WrittenJob(job: Job, base: Spool, edit: Op, data: Spool)
    ensures !Written(job, base, edit, data).Idle? && Written(job, base, edit, data).job == job
  {
  }

  lemma LoadedOk(pc: PC, file: Spool)
    requires PcOk(pc, file)
    ensures pc.Holding? ==> PcOk(Loaded(pc.job, pc.base, pc.edit, file), file)
    ensures pc.Peeking? ==> PcOk(Leaving(pc.job, pc.base, Eligible(file)), file)
    ensures pc.Loaded? && Writes(pc.data, pc.edit) ==>
      PcOk(Staged(pc.job, pc.base, pc.edit, pc.data, Apply(pc.data, pc.job.path, pc.edit)), file)
  {
    hide Between, Writes, Apply;
  }

  lemma QuitOk(pc: PC, file: Spool)
    requires PcOk(pc, file) && pc.Loaded? && !Writes(pc.data, pc.edit)
    ensures PcOk(Leaving(pc.job, pc.base, []), file)
  {
    hide Claim, Mark, Inherit, Append, Expire, Eligible, HasAuthority;
    NoWriteSame(file, pc.job.path, pc.edit);
  }

  lemma LeftOk(pc: PC, ids: seq<string>, f: Spool)
    requires pc.Leaving?
    ensures PcOk(Left(pc.job, pc.snapshot, ids), f) && HeldBy(Left(pc.job, pc.snapshot, ids)).None?
  {
  }

  /** Every step of every process keeps the invariant. */
  lemma StepInv(w: World, p: Proc, step: Step)
    requires Inv(w)
    ensures Inv(Next(w, p, step))
  {
    hide PcOk, Inv, Writes, Apply, Starts, Entered, Written, Left, Eligible;
    InvAt(w, p);
    var pc := PcOf(w, p);
    if !pc.Idle? { LoadedOk(pc, File(w, pc.job.path)); }
    match step {
      case Begin(job) =>
        if pc.Idle? && Starts(w, job) {
          StartsOk(w, job, File(w, job.path));
          MovesOn(w, p, Wanting(job, 0));
        }
      case Acquire =>
        if pc.Wanting? && pc.job.path !in w.locks { AcquireInv(w, p); }
      case Busy =>
        if pc.Wanting? {
          BusyOk(pc, File(w, pc.job.path));
          MovesOn(w, p, Idle);
          if pc.tries + 1 < LOCK_ATTEMPTS { MovesOn(w, p, Wanting(pc.job, pc.tries + 1)); }
        }
      case Load =>
        if pc.Holding? { MovesOn(w, p, Loaded(pc.job, pc.base, pc.edit, File(w, pc.job.path))); }
        if pc.Peeking? { MovesOn(w, p, Leaving(pc.job, pc.base, Eligible(File(w, pc.job.path)))); }
      case Quit =>
        if pc.Loaded? && !Writes(pc.data, pc.edit) {
          QuitOk(pc, File(w, pc.job.path));
          MovesOn(w, p, Leaving(pc.job, pc.base, []));
        }
      case Stage =>
        if pc.Loaded? && Writes(pc.data, pc.edit) {
          MovesOn(w, p, Staged(pc.job, pc.base, pc.edit, pc.data, Apply(pc.data, pc.job.path, pc.edit)));
        }
      case Commit =>
        if pc.Staged? { CommitInv(w, p); }
      case Fail =>
        if pc.Wanting? {
          MovesOn(w, p, Idle);
        } else if !pc.Idle? {
          IdleOk();
          LeaveInv(w, p, Idle);
        }
      case Release(ids) =>
        if pc.Leaving? && |ids| == |pc.snapshot| {
          forall f ensures PcOk(Left(pc.job, pc.snapshot, ids), f) { LeftOk(pc, ids, f); }
          LeftOk(pc, ids, EMPTY);
          LeaveInv(w, p, Left(pc.job, pc.snapshot, ids));
        }
    }
  }

  lemma StartsOk(w: World, job: Job, f: Spool)
    requires Starts(w, job)
    ensures PcOk(Wanting(job, 0), f)
  {
  }

  lemma BusyOk(pc: PC, f: Spool)
    requires pc.Wanting? && PcOk(pc, f)
    ensures pc.tries + 1 < LOCK_ATTEMPTS ==> PcOk(Wanting(pc.job, pc.tries + 1), f)
  {
  }

  lemma IdleOk()
    ensures forall f :: PcOk(Idle, f)
  {
  }
}
