/** Properties of every run of spool operations. */
module SpoolRuns {
  import opened Text
  import opened Spool

  datatype Op =
    | OpAppend(row: Row)
    | OpClaim(now: int, allowExpired: bool)
    | OpMark(entryId: string, at: int, via: string)
    | OpConsume(live: Live, now: int, at: int, via: string)
    | OpExpire(at: int, reason: string)
    | OpInherit(snapshot: seq<Row>, ids: seq<string>, now: int, parent: string, via: string)

  function Apply(s: Spool, id: string, op: Op): Spool {
    match op
    case OpAppend(row) => Append(s, id, row)
    case OpClaim(now, allow) => Claim(s, now, allow).0
    case OpMark(entryId, at, via) => Mark(s, id, entryId, at, via)
    case OpConsume(live, now, at, via) => Consume(s, id, live, now, at, via).0
    case OpExpire(at, reason) => Expire(s, id, at, reason)
    case OpInherit(snapshot, ids, now, parent, via) =>
      if |ids| == |snapshot| then InheritInto(s, id, snapshot, ids, now, parent, via) else s
  }

  function Exec(s: Spool, id: string, ops: seq<Op>): Spool
    decreases |ops|
  {
    if ops == [] then s else Exec(Apply(s, id, ops[0]), id, ops[1..])
  }

  lemma ExecOne(s: Spool, id: string, op: Op)
    ensures Exec(s, id, [op]) == Apply(s, id, op)
  {
    hide Apply;
    assert [op][1..] == [];
    assert Exec(Apply(s, id, op), id, []) == Apply(s, id, op);
  }

  lemma {:induction false} ExecConcat(s: Spool, id: string, a: seq<Op>, b: seq<Op>)
    ensures Exec(s, id, a + b) == Exec(Exec(s, id, a), id, b)
    decreases |a|
  {
    hide Apply;
    if a == [] {
      assert a + b == b;
    } else {
      assert (a + b)[1..] == a[1..] + b;
      ExecConcat(Apply(s, id, a[0]), id, a[1..], b);
    }
  }

  /* ---------- rows are moved, never lost, doubled or changed ---------- */

  /** What a deposit fixes for good. */
  datatype Deed = Deed(entryId: string, authority: string, directive: string, depositedAt: Option<int>, ttl: int)

  function DeedOf(r: Row): Deed {
    Deed(r.entryId, r.authority, r.directive, r.depositedAt, r.ttl)
  }

  function Deeds(rows: seq<Row>): seq<Deed> {
    if rows == [] then [] else [DeedOf(rows[0])] + Deeds(rows[1..])
  }

  function Held(s: Spool): multiset<Deed> {
    multiset(Deeds(s.pending)) + multiset(Deeds(s.delivered)) + multiset(Deeds(s.expired))
  }

  /** The rows an operation really deposits in the state it meets. */
  function NewRows(s: Spool, id: string, op: Op): seq<Row> {
    if (op.OpAppend? || op.OpInherit?) && |s.pending| <= |Apply(s, id, op).pending|
    then Apply(s, id, op).pending[|s.pending|..] else []
  }

  function Deposited(s: Spool, id: string, ops: seq<Op>): seq<Deed>
    decreases |ops|
  {
    if ops == [] then [] else Deeds(NewRows(s, id, ops[0])) + Deposited(Apply(s, id, ops[0]), id, ops[1..])
  }

  lemma {:induction false} DeedsConcat(a: seq<Row>, b: seq<Row>)
    ensures Deeds(a + b) == Deeds(a) + Deeds(b)
  {
    if a == [] {
      assert a + b == b;
    } else {
      assert (a + b)[1..] == a[1..] + b;
      DeedsConcat(a[1..], b);
    }
  }

  lemma {:induction false} DeedsSame(a: seq<Row>, b: seq<Row>)
    requires |a| == |b| && forall i :: 0 <= i < |a| ==> DeedOf(a[i]) == DeedOf(b[i])
    ensures Deeds(a) == Deeds(b)
  {
    if a != [] {
      DeedsSame(a[1..], b[1..]);
    }
  }

  lemma ClaimKeeps(s: Spool, now: int, allow: bool)
    ensures var (t, row) := Claim(s, now, allow);
      && Deeds(t.pending) == Deeds(s.pending) && t.delivered == s.delivered && t.expired == s.expired
      && (row.Some? ==> FirstId(t.pending, row.value.entryId) < |t.pending|)
  {
    var (t, row) := Claim(s, now, allow);
    if row.Some? {
      var i := FirstClaimable(s.pending, now, allow, 0);
      assert t.pending[i].entryId == row.value.entryId;
      DeedsSame(t.pending, s.pending);
    }
  }

  /** Moving one row between buckets keeps the multiset of deeds. */
  lemma RowMoves(a: seq<Row>, r: Row, b: seq<Row>, done: seq<Row>, record: Row)
    requires DeedOf(record) == DeedOf(r)
    ensures multiset(Deeds(a + b)) + multiset(Deeds(done + [record])) == multiset(Deeds(a + [r] + b)) + multiset(Deeds(done))
  {
    hide Deeds;
    DeedsConcat(a + [r], b);
    DeedsConcat(a, [r]);
    DeedsConcat(a, b);
    DeedsConcat(done, [record]);
    DeedsSame([record], [r]);
  }

  lemma MarkMoves(s: Spool, id: string, entryId: string, at: int, via: string)
    ensures var t := Mark(s, id, entryId, at, via);
      && Held(t) == Held(s) && s.delivered <= t.delivered && t.expired == s.expired
  {
    hide Deeds;
    var i := FirstId(s.pending, entryId);
    if i < |s.pending| {
      assert s.pending == s.pending[..i] + [s.pending[i]] + s.pending[i + 1..];
      RowMoves(s.pending[..i], s.pending[i], s.pending[i + 1..], s.delivered,
               s.pending[i].(claimed := true, outcome := DeliveredAt(at, via)));
    }
  }

  lemma ExpireMoves(s: Spool, id: string, at: int, reason: string)
    ensures var t := Expire(s, id, at, reason);
      Held(t) == Held(s) && t.delivered == s.delivered && s.expired <= t.expired
  {
    if s.pending != [] {
      var moved := ExpireRows(s.pending, at, reason);
      DeedsConcat(s.expired, moved);
      DeedsSame(moved, s.pending);
    }
  }

  lemma {:induction false} InheritGrows(s: Spool, snapshot: seq<Row>, ids: seq<string>, now: int, parent: string, via: string)
    requires |ids| == |snapshot|
    ensures var t := Inherit(s, snapshot, ids, now, parent, via);
      s.pending <= t.pending && t.delivered == s.delivered && t.expired == s.expired
    decreases |snapshot|
  {
    hide Known;
    if snapshot != [] {
      var row := snapshot[0];
      var next := if row.authority == "" || Known(s, row.authority) then s
                  else s.(pending := s.pending + [Inherited(row, ids[0], now, parent, via)]);
      InheritGrows(next, snapshot[1..], ids[1..], now, parent, via);
    }
  }

  /** Every other operation only moves rows forward. */
  lemma StepMoves(s: Spool, id: string, op: Op)
    requires !op.OpAppend? && !op.OpInherit?
    ensures var t := Apply(s, id, op);
      Held(t) == Held(s) && s.delivered <= t.delivered && s.expired <= t.expired
  {
    hide Claim, Mark, Expire, Deeds;
    match op
    case OpClaim(now, allow) => ClaimKeeps(s, now, allow);
    case OpMark(entryId, at, via) => MarkMoves(s, id, entryId, at, via);
    case OpConsume(live, now, at, via) =>
      ClaimKeeps(s, now, live.Alive?);
      var (c, row) := Claim(s, now, live.Alive?);
      if row.Some? {
        MarkMoves(c, id, row.value.entryId, at, via);
      }
    case OpExpire(at, reason) => ExpireMoves(s, id, at, reason);
  }

  lemma StepDeposits(s: Spool, id: string, op: Op)
    requires op.OpAppend? || op.OpInherit?
    ensures var t := Apply(s, id, op);
      s.pending <= t.pending && t.delivered == s.delivered && t.expired == s.expired
  {
    hide Inherit, HasAuthority;
    if op.OpInherit? && |op.ids| == |op.snapshot| {
      InheritGrows(s, op.snapshot, op.ids, op.now, op.parent, op.via);
    }
  }

  /** One operation keeps every row it holds, adds what it deposits, and never touches the two final buckets. */
  lemma StepConserves(s: Spool, id: string, op: Op)
    ensures var t := Apply(s, id, op);
      && Held(t) == Held(s) + multiset(Deeds(NewRows(s, id, op)))
      && s.delivered <= t.delivered && s.expired <= t.expired
  {
    hide Apply, Held;
    if op.OpAppend? || op.OpInherit? {
      StepDeposits(s, id, op);
      PendingGrows(s, Apply(s, id, op));
    } else {
      StepMoves(s, id, op);
      assert Deeds([]) == [];
    }
  }

  lemma PendingGrows(s: Spool, t: Spool)
    requires s.pending <= t.pending && t.delivered == s.delivered && t.expired == s.expired
    ensures Held(t) == Held(s) + multiset(Deeds(t.pending[|s.pending|..]))
  {
    assert t.pending == s.pending + t.pending[|s.pending|..];
    DeedsConcat(s.pending, t.pending[|s.pending|..]);
  }

  /** Over a whole run: held rows are the initial ones and the deposited ones, each as often; final buckets only grow. */
  lemma {:induction false} RunConserves(s: Spool, id: string, ops: seq<Op>)
    ensures var t := Exec(s, id, ops);
      && Held(t) == Held(s) + multiset(Deposited(s, id, ops))
      && s.delivered <= t.delivered && s.expired <= t.expired
    decreases |ops|
  {
    hide Apply, Held, NewRows;
    if ops != [] {
      StepConserves(s, id, ops[0]);
      RunConserves(Apply(s, id, ops[0]), id, ops[1..]);
    }
  }

  function IdsOf(deeds: seq<Deed>): (r: seq<string>)
    ensures |r| == |deeds| && forall i :: 0 <= i < |deeds| ==> r[i] == deeds[i].entryId
  {
    seq(|deeds|, i requires 0 <= i < |deeds| => deeds[i].entryId)
  }

  lemma {:induction false} DistinctOnce<T>(xs: seq<T>, x: T)
    requires Distinct(xs)
    ensures multiset(xs)[x] == if x in xs then 1 else 0
  {
    if xs != [] {
      assert xs == [xs[0]] + xs[1..];
      DistinctOnce(xs[1..], x);
    }
  }

  /** With fresh entry ids, every deposited row is in exactly one of the three buckets, exactly once. */
  lemma FreshRowsHeldOnce(id: string, ops: seq<Op>, deed: Deed)
    requires Distinct(IdsOf(Deposited(EMPTY, id, ops)))
    ensures var t := Exec(EMPTY, id, ops);
      multiset(Deeds(t.pending))[deed] + multiset(Deeds(t.delivered))[deed] + multiset(Deeds(t.expired))[deed]
      == if deed in Deposited(EMPTY, id, ops) then 1 else 0
  {
    hide Exec, Deposited, Deeds;
    var deeds, t := Deposited(EMPTY, id, ops), Exec(EMPTY, id, ops);
    RunConserves(EMPTY, id, ops);
    NothingHeld();
    assert Held(t) == multiset(deeds);
    forall i, j | 0 <= i < j < |deeds| ensures deeds[i] != deeds[j] {
      assert IdsOf(deeds)[i] != IdsOf(deeds)[j];
    }
    DistinctOnce(deeds, deed);
    assert Held(t)[deed] == multiset(Deeds(t.pending))[deed] + multiset(Deeds(t.delivered))[deed] + multiset(Deeds(t.expired))[deed];
  }

  /** All deeds of a spool, bucket by bucket. */
  function AllDeeds(s: Spool): seq<Deed> {
    Deeds(s.pending) + Deeds(s.delivered) + Deeds(s.expired)
  }

  lemma SameIdSameDeed(all: seq<Deed>, d: Deed, e: Deed)
    requires Distinct(IdsOf(all)) && d in all && e in all && d.entryId == e.entryId
    ensures d == e
  {
    var i :| 0 <= i < |all| && all[i] == d;
    var j :| 0 <= j < |all| && all[j] == e;
    assert IdsOf(all)[i] == IdsOf(all)[j];
  }

  lemma TwiceCounted<T>(xs: seq<T>, i: nat, j: nat)
    requires i < j < |xs| && xs[i] == xs[j]
    ensures multiset(xs)[xs[i]] >= 2
  {
    assert xs == xs[..i] + [xs[i]] + xs[i + 1..j] + [xs[j]] + xs[j + 1..];
  }

  lemma {:induction false} DeedsAt(rows: seq<Row>, i: nat)
    requires i < |rows|
    ensures |Deeds(rows)| == |rows| && Deeds(rows)[i] == DeedOf(rows[i])
  {
    if i > 0 {
      DeedsAt(rows[1..], i - 1);
    } else if |rows| > 1 {
      DeedsAt(rows[1..], 0);
    }
  }

  /** Entry ids that are fresh when deposited stay distinct among the delivered rows of every run. */
  lemma FreshDelivered(s: Spool, id: string, ops: seq<Op>, i: nat, j: nat)
    requires Distinct(IdsOf(AllDeeds(s) + Deposited(s, id, ops)))
    requires i < j < |Exec(s, id, ops).delivered|
    ensures Exec(s, id, ops).delivered[i].entryId != Exec(s, id, ops).delivered[j].entryId
  {
    hide Exec, Deposited, Deeds;
    var t, all := Exec(s, id, ops), AllDeeds(s) + Deposited(s, id, ops);
    RunConserves(s, id, ops);
    assert Held(t) == multiset(all);
    DeedsAt(t.delivered, i);
    DeedsAt(t.delivered, j);
    var d, e := Deeds(t.delivered)[i], Deeds(t.delivered)[j];
    assert d in Held(t) && e in Held(t);
    if d.entryId == e.entryId {
      SameIdSameDeed(all, d, e);
      TwiceCounted(Deeds(t.delivered), i, j);
      forall k, m | 0 <= k < m < |all| ensures all[k] != all[m] {
        assert IdsOf(all)[k] != IdsOf(all)[m];
      }
      DistinctOnce(all, d);
    }
  }

  lemma NothingHeld()
    ensures Held(EMPTY) == multiset{}
  {
  }

  /* ---------- first in, first out ---------- */

  predicate AppendOrLiveConsume(op: Op) {
    (op.OpAppend? && !op.row.claimed) || (op.OpConsume? && op.live.Alive?)
  }

  predicate Unclaimed(rows: seq<Row>) {
    forall i :: 0 <= i < |rows| ==> !rows[i].claimed
  }

  lemma FifoAppend(s: Spool, id: string, row: Row)
    requires Unclaimed(s.pending) && !row.claimed
    ensures var t := Append(s, id, row);
      && Unclaimed(t.pending) && t.delivered == s.delivered && s.pending <= t.pending
      && Deeds(t.pending) == Deeds(s.pending) + Deeds(t.pending[|s.pending|..])
  {
    hide HasAuthority, Deeds;
    var t := Append(s, id, row);
    assert t.pending == s.pending + t.pending[|s.pending|..];
    DeedsConcat(s.pending, t.pending[|s.pending|..]);
  }

  lemma FifoConsume(s: Spool, id: string, now: int, at: int, via: string)
    requires Unclaimed(s.pending)
    ensures var t := Consume(s, id, Alive, now, at, via).0;
      && Unclaimed(t.pending)
      && Deeds(t.delivered) + Deeds(t.pending) == Deeds(s.delivered) + Deeds(s.pending)
  {
    if s.pending != [] {
      ConsumeTakesFirst(s, id, now, at, via);
      FirstMoved(s.pending, s.delivered, s.pending[0].(claimed := true, outcome := DeliveredAt(at, via)));
    }
  }

  lemma FirstMoved(rows: seq<Row>, done: seq<Row>, record: Row)
    requires rows != [] && DeedOf(record) == DeedOf(rows[0])
    ensures Deeds(done + [record]) + Deeds(rows[1..]) == Deeds(done) + Deeds(rows)
  {
    hide Deeds;
    DeedsConcat(done, [record]);
    DeedsSame([record], [rows[0]]);
    DeedsConcat([rows[0]], rows[1..]);
    assert [rows[0]] + rows[1..] == rows;
    assert Deeds(done) + Deeds([record]) + Deeds(rows[1..]) == Deeds(done) + (Deeds([record]) + Deeds(rows[1..]));
  }

  lemma ConsumeTakesFirst(s: Spool, id: string, now: int, at: int, via: string)
    requires Unclaimed(s.pending) && s.pending != []
    ensures var t := Consume(s, id, Alive, now, at, via).0;
      && t.pending == s.pending[1..]
      && t.delivered == s.delivered + [s.pending[0].(claimed := true, outcome := DeliveredAt(at, via))]
  {
    assert FirstClaimable(s.pending, now, true, 0) == 0;
    var row := s.pending[0].(claimed := true);
    var c := s.pending[0 := row];
    assert FirstId(c, row.entryId) == 0;
    assert c[..0] + c[1..] == s.pending[1..];
  }

  lemma FifoStep(s: Spool, id: string, op: Op)
    requires Unclaimed(s.pending) && AppendOrLiveConsume(op)
    ensures var t := Apply(s, id, op);
      && Unclaimed(t.pending)
      && Deeds(t.delivered) + Deeds(t.pending) == Deeds(s.delivered) + Deeds(s.pending) + Deeds(NewRows(s, id, op))
  {
    hide Append, Consume, Deeds, Unclaimed;
    var t := Apply(s, id, op);
    if op.OpAppend? {
      FifoAppend(s, id, op.row);
      assert Deeds(s.delivered) + (Deeds(s.pending) + Deeds(t.pending[|s.pending|..]))
          == Deeds(s.delivered) + Deeds(s.pending) + Deeds(t.pending[|s.pending|..]);
    } else {
      FifoConsume(s, id, op.now, op.at, op.via);
      DeedsNone();
    }
  }

  lemma DeedsNone()
    ensures Deeds([]) == []
  {
  }

  /** Under deposits and live consumption alone the spool is a FIFO queue. */
  lemma {:induction false} SpoolIsFifo(s: Spool, id: string, ops: seq<Op>)
    requires Unclaimed(s.pending) && forall i :: 0 <= i < |ops| ==> AppendOrLiveConsume(ops[i])
    ensures var t := Exec(s, id, ops);
      Deeds(t.delivered) + Deeds(t.pending) == Deeds(s.delivered) + Deeds(s.pending) + Deposited(s, id, ops)
    decreases |ops|
  {
    hide Apply, NewRows, Unclaimed;
    if ops != [] {
      FifoStep(s, id, ops[0]);
      SpoolIsFifo(Apply(s, id, ops[0]), id, ops[1..]);
    }
  }

  /** Not claimed, and its time to live, if it has one, has not run out; for a live dispatch time does not count. */
  predicate Due(row: Row, live: Live, now: int) {
    !row.claimed && (live.Alive? || row.ttl <= 0 || row.depositedAt.None? || now <= row.depositedAt.value + row.ttl)
  }

  predicate OldestDue(rows: seq<Row>, i: nat, live: Live, now: int) {
    i < |rows| && Due(rows[i], live, now) && forall k :: 0 <= k < i ==> !Due(rows[k], live, now)
  }

  lemma ClaimableIsDue(row: Row, live: Live, now: int)
    ensures Claimable(row, now, live.Alive?) <==> Due(row, live, now)
  {
  }

  /** Consuming takes the oldest row that is due and delivers it; an ended dispatch gets nothing. */
  lemma ConsumeTakesOldest(s: Spool, id: string, live: Live, now: int, at: int, via: string)
    ensures var (t, row) := Consume(s, id, live, now, at, via);
      && (row.Some? <==> !live.Ended? && exists i :: 0 <= i < |s.pending| && OldestDue(s.pending, i, live, now))
      && (row.None? ==> t == s)
      && forall i :: 0 <= i < |s.pending| && row.Some? && OldestDue(s.pending, i, live, now) ==> row.value == s.pending[i].(claimed := true)
  {
    hide Mark, Claimable, Due;
    forall k | 0 <= k < |s.pending| ensures Claimable(s.pending[k], now, live.Alive?) == Due(s.pending[k], live, now) {
      ClaimableIsDue(s.pending[k], live, now);
    }
    var i := FirstClaimable(s.pending, now, live.Alive?, 0);
    if i < |s.pending| && !live.Ended? {
      assert Claimable(s.pending[i], now, live.Alive?);
      assert forall k :: 0 <= k < i ==> !Claimable(s.pending[k], now, live.Alive?);
      assert OldestDue(s.pending, i, live, now);
    }
  }

  /** Claiming alone: the same row is flagged and nothing else changes; nothing happens when no row is due. */
  lemma ClaimFlagsOldest(s: Spool, now: int, allowExpired: bool)
    ensures var (t, row) := Claim(s, now, allowExpired);
      var live := if allowExpired then Alive else Unknown;
      && (row.Some? <==> exists i :: 0 <= i < |s.pending| && OldestDue(s.pending, i, live, now))
      && (row.None? ==> t == s)
      && forall i :: 0 <= i < |s.pending| && OldestDue(s.pending, i, live, now) ==>
           row == Some(s.pending[i].(claimed := true)) && t == s.(pending := s.pending[i := s.pending[i].(claimed := true)])
  {
    hide Claimable, Due;
    var live := if allowExpired then Alive else Unknown;
    forall k | 0 <= k < |s.pending| ensures Claimable(s.pending[k], now, allowExpired) == Due(s.pending[k], live, now) {
      ClaimableIsDue(s.pending[k], live, now);
    }
    var i := FirstClaimable(s.pending, now, allowExpired, 0);
    if i < |s.pending| {
      assert Claimable(s.pending[i], now, allowExpired);
      assert forall k :: 0 <= k < i ==> !Claimable(s.pending[k], now, allowExpired);
      assert OldestDue(s.pending, i, live, now);
    }
  }

  /* ---------- authorities ---------- */

  /** Pending authorities are pairwise distinct. */
  predicate DistinctPending(s: Spool) {
    forall i, j :: 0 <= i < j < |s.pending| ==> s.pending[i].authority != s.pending[j].authority
  }

  lemma HasAuthorityIn(rows: seq<Row>, i: nat)
    requires i < |rows|
    ensures HasAuthority(rows, rows[i].authority)
  {
  }

  lemma PendingSnoc(s: Spool, row: Row)
    requires DistinctPending(s) && !HasAuthority(s.pending, row.authority)
    ensures DistinctPending(s.(pending := s.pending + [row]))
  {
    forall i | 0 <= i < |s.pending| ensures s.pending[i].authority != row.authority {
      HasAuthorityIn(s.pending, i);
    }
  }

  lemma {:induction false} InheritDistinct(s: Spool, snapshot: seq<Row>, ids: seq<string>, now: int, parent: string, via: string)
    requires |ids| == |snapshot| && DistinctPending(s)
    ensures DistinctPending(Inherit(s, snapshot, ids, now, parent, via))
    decreases |snapshot|
  {
    hide HasAuthority, DistinctPending;
    if snapshot != [] {
      var row := snapshot[0];
      if row.authority != "" && !Known(s, row.authority) {
        PendingSnoc(s, Inherited(row, ids[0], now, parent, via));
      }
      var next := if row.authority == "" || Known(s, row.authority) then s
                  else s.(pending := s.pending + [Inherited(row, ids[0], now, parent, via)]);
      InheritDistinct(next, snapshot[1..], ids[1..], now, parent, via);
    }
  }

  lemma MarkDistinct(s: Spool, id: string, entryId: string, at: int, via: string)
    requires DistinctPending(s)
    ensures DistinctPending(Mark(s, id, entryId, at, via))
  {
    var i := FirstId(s.pending, entryId);
    if i < |s.pending| {
      var rest := s.pending[..i] + s.pending[i + 1..];
      assert forall t :: 0 <= t < |rest| ==> rest[t] == s.pending[if t < i then t else t + 1];
    }
  }

  lemma ClaimDistinct(s: Spool, now: int, allow: bool)
    requires DistinctPending(s)
    ensures DistinctPending(Claim(s, now, allow).0)
  {
    var t := Claim(s, now, allow).0;
    assert |t.pending| == |s.pending| && forall i :: 0 <= i < |s.pending| ==> t.pending[i].authority == s.pending[i].authority;
  }

  lemma StepDistinct(s: Spool, id: string, op: Op)
    requires DistinctPending(s)
    ensures DistinctPending(Apply(s, id, op))
  {
    hide DistinctPending, Claim, Mark, Inherit, HasAuthority;
    match op
    case OpAppend(row) =>
      if !HasAuthority(s.pending, row.authority) {
        PendingSnoc(s, row);
        SameDistinct(s.(pending := s.pending + [row]), Apply(s, id, op));
      }
    case OpClaim(now, allow) => ClaimDistinct(s, now, allow);
    case OpMark(entryId, at, via) => MarkDistinct(s, id, entryId, at, via);
    case OpConsume(live, now, at, via) =>
      ClaimDistinct(s, now, live.Alive?);
      var (c, row) := Claim(s, now, live.Alive?);
      if row.Some? {
        MarkDistinct(c, id, row.value.entryId, at, via);
      }
    case OpExpire(at, reason) => NoneDistinct(Expire(s, id, at, reason), s);
    case OpInherit(snapshot, ids, now, parent, via) =>
      if |ids| == |snapshot| {
        InheritDistinct(s, snapshot, ids, now, parent, via);
        SameDistinct(Inherit(s, snapshot, ids, now, parent, via), Apply(s, id, op));
      }
  }

  lemma SameDistinct(s: Spool, t: Spool)
    requires DistinctPending(s) && t.pending == s.pending
    ensures DistinctPending(t)
  {
  }

  lemma NoneDistinct(t: Spool, s: Spool)
    requires DistinctPending(s) && (t.pending == [] || t == s)
    ensures DistinctPending(t)
  {
  }

  lemma {:induction false} RunDistinct(s: Spool, id: string, ops: seq<Op>)
    requires DistinctPending(s)
    ensures DistinctPending(Exec(s, id, ops))
    decreases |ops|
  {
    hide Apply, DistinctPending;
    if ops != [] {
      StepDistinct(s, id, ops[0]);
      RunDistinct(Apply(s, id, ops[0]), id, ops[1..]);
    }
  }
}
