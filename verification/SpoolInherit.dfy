/** What a resumed dispatch takes over from its parent, and why repeating the take-over adds nothing. */
module SpoolInherit {
  import opened Text
  import opened Spool
  import opened SpoolRuns

  /** The first row with the given authority, else the length. */
  function FirstAuthority(rows: seq<Row>, a: string): (r: nat)
    ensures r <= |rows| && (r < |rows| <==> HasAuthority(rows, a)) && (r < |rows| ==> rows[r].authority == a)
  {
    if rows == [] then 0
    else if rows[0].authority == a then 0
    else
      assert HasAuthority(rows[1..], a) <==> HasAuthority(rows, a) by { HasTail(rows, a); }
      1 + FirstAuthority(rows[1..], a)
  }

  lemma HasTail(rows: seq<Row>, a: string)
    requires rows != []
    ensures HasAuthority(rows, a) <==> rows[0].authority == a || HasAuthority(rows[1..], a)
  {
    if HasAuthority(rows[1..], a) {
      var i :| 0 <= i < |rows[1..]| && rows[1..][i].authority == a;
      assert rows[i + 1].authority == a;
    }
    if HasAuthority(rows, a) && rows[0].authority != a {
      var i :| 0 <= i < |rows| && rows[i].authority == a;
      assert rows[1..][i - 1].authority == a;
    }
  }

  lemma HasConcat(x: seq<Row>, y: seq<Row>, a: string)
    ensures HasAuthority(x + y, a) <==> HasAuthority(x, a) || HasAuthority(y, a)
  {
    if HasAuthority(x, a) {
      var i :| 0 <= i < |x| && x[i].authority == a;
      assert (x + y)[i].authority == a;
    }
    if HasAuthority(y, a) {
      var i :| 0 <= i < |y| && y[i].authority == a;
      assert (x + y)[|x| + i].authority == a;
    }
  }

  predicate Wanted(s: Spool, snapshot: seq<Row>, a: string) {
    a != "" && HasAuthority(snapshot, a) && !Known(s, a)
  }

  /**
   * `added` is the take-over of `snapshot` by `s`: one copy of the first snapshot row of every wanted authority,
   * in snapshot order, and nothing else.
   */
  ghost predicate TakesOver(added: seq<Row>, s: Spool, snapshot: seq<Row>, ids: seq<string>, now: int, parent: string, via: string)
    requires |ids| == |snapshot|
  {
    && (forall a :: HasAuthority(added, a) <==> Wanted(s, snapshot, a))
    && (forall i :: 0 <= i < |added| ==> CopiesFirst(added[i], snapshot, ids, now, parent, via))
    && (forall i, j :: 0 <= i < j < |added| ==>
          FirstAuthority(snapshot, added[i].authority) < FirstAuthority(snapshot, added[j].authority))
  }

  predicate CopiesFirst(r: Row, snapshot: seq<Row>, ids: seq<string>, now: int, parent: string, via: string)
    requires |ids| == |snapshot|
  {
    var k := FirstAuthority(snapshot, r.authority);
    && k < |snapshot|
    && r.entryId == ids[k] && r.authority == snapshot[k].authority && r.directive == snapshot[k].directive
    && r.depositedAt == Some(now) && r.ttl == snapshot[k].ttl && !r.claimed && r.outcome == Undecided
    && r.origin == Some(Origin(snapshot[k].entryId, snapshot[k].depositedAt, parent, via))
  }

  /** The state after looking at the first snapshot row. */
  function Look(s: Spool, row: Row, id: string, now: int, parent: string, via: string): Spool {
    if row.authority == "" || Known(s, row.authority) then s
    else s.(pending := s.pending + [Inherited(row, id, now, parent, via)])
  }

  lemma LookKnown(s: Spool, row: Row, id: string, now: int, parent: string, via: string, a: string)
    requires row.authority != ""
    ensures Known(Look(s, row, id, now, parent, via), a) <==> Known(s, a) || row.authority == a
  {
    hide HasAuthority;
    var copy := Inherited(row, id, now, parent, via);
    HasConcat(s.pending, [copy], a);
    HasTail([copy], a);
    assert [copy][1..] == [];
    HasNone(a);
  }

  lemma HasNone(a: string)
    ensures !HasAuthority([], a)
  {
  }

  lemma SkipFirst(added: seq<Row>, s: Spool, snapshot: seq<Row>, ids: seq<string>, now: int, parent: string, via: string)
    requires snapshot != [] && |ids| == |snapshot|
    requires snapshot[0].authority == "" || Known(s, snapshot[0].authority)
    requires TakesOver(added, s, snapshot[1..], ids[1..], now, parent, via)
    ensures TakesOver(added, s, snapshot, ids, now, parent, via)
  {
    hide Known, HasAuthority, FirstAuthority;
    forall a ensures Wanted(s, snapshot, a) <==> Wanted(s, snapshot[1..], a) {
      HasTail(snapshot, a);
    }
    forall i | 0 <= i < |added|
      ensures FirstAuthority(snapshot, added[i].authority) == 1 + FirstAuthority(snapshot[1..], added[i].authority)
      ensures CopiesFirst(added[i], snapshot, ids, now, parent, via)
    {
      HasAuthorityIn(added, i);
      assert Wanted(s, snapshot[1..], added[i].authority);
      assert CopiesFirst(added[i], snapshot[1..], ids[1..], now, parent, via);
      FirstLater(snapshot, added[i].authority);
    }
  }

  lemma FirstLater(snapshot: seq<Row>, a: string)
    requires snapshot != [] && snapshot[0].authority != a
    ensures FirstAuthority(snapshot, a) == 1 + FirstAuthority(snapshot[1..], a)
  {
  }

  lemma FirstNow(snapshot: seq<Row>)
    requires snapshot != []
    ensures FirstAuthority(snapshot, snapshot[0].authority) == 0
  {
  }

  lemma TakeFirst(added: seq<Row>, s: Spool, snapshot: seq<Row>, ids: seq<string>, now: int, parent: string, via: string)
    requires snapshot != [] && |ids| == |snapshot|
    requires snapshot[0].authority != "" && !Known(s, snapshot[0].authority)
    requires TakesOver(added, Look(s, snapshot[0], ids[0], now, parent, via), snapshot[1..], ids[1..], now, parent, via)
    ensures TakesOver([Inherited(snapshot[0], ids[0], now, parent, via)] + added, s, snapshot, ids, now, parent, via)
  {
    hide Known, HasAuthority, FirstAuthority, Look;
    var row, copy := snapshot[0], Inherited(snapshot[0], ids[0], now, parent, via);
    var all, next := [copy] + added, Look(s, row, ids[0], now, parent, via);
    FirstNow(snapshot);
    forall a ensures HasAuthority(all, a) <==> Wanted(s, snapshot, a) {
      HasTail(snapshot, a);
      HasTail(all, a);
      assert all[1..] == added;
      LookKnown(s, row, ids[0], now, parent, via, a);
      assert HasAuthority(added, a) <==> Wanted(next, snapshot[1..], a);
    }
    forall i | 0 <= i < |added|
      ensures FirstAuthority(snapshot, added[i].authority) == 1 + FirstAuthority(snapshot[1..], added[i].authority)
      ensures CopiesFirst(added[i], snapshot, ids, now, parent, via)
    {
      HasAuthorityIn(added, i);
      assert Wanted(next, snapshot[1..], added[i].authority);
      LookKnown(s, row, ids[0], now, parent, via, added[i].authority);
      assert CopiesFirst(added[i], snapshot[1..], ids[1..], now, parent, via);
      FirstLater(snapshot, added[i].authority);
    }
  }

  /** Inheriting extends pending by exactly the take-over of the snapshot and changes nothing else. */
  lemma {:induction false} InheritAdds(s: Spool, snapshot: seq<Row>, ids: seq<string>, now: int, parent: string, via: string)
    requires |ids| == |snapshot|
    ensures var t := Inherit(s, snapshot, ids, now, parent, via);
      && s.pending <= t.pending && t.delivered == s.delivered && t.expired == s.expired
      && TakesOver(t.pending[|s.pending|..], s, snapshot, ids, now, parent, via)
    decreases |snapshot|
  {
    hide Known, HasAuthority, TakesOver, Inherited;
    InheritGrows(s, snapshot, ids, now, parent, via);
    var t := Inherit(s, snapshot, ids, now, parent, via);
    if snapshot == [] {
      NothingAdded(s, now, parent, via);
      assert t.pending[|s.pending|..] == [] && ids == [];
    } else {
      var next := Look(s, snapshot[0], ids[0], now, parent, via);
      assert t == Inherit(next, snapshot[1..], ids[1..], now, parent, via);
      InheritAdds(next, snapshot[1..], ids[1..], now, parent, via);
      var added := t.pending[|next.pending|..];
      if snapshot[0].authority == "" || Known(s, snapshot[0].authority) {
        SkipFirst(added, s, snapshot, ids, now, parent, via);
      } else {
        TakeFirst(added, s, snapshot, ids, now, parent, via);
        assert t.pending[|s.pending|..] == [Inherited(snapshot[0], ids[0], now, parent, via)] + added;
      }
    }
  }

  lemma NothingAdded(s: Spool, now: int, parent: string, via: string)
    ensures TakesOver([], s, [], [], now, parent, via)
  {
  }

  /** After inheriting, the child knows what it knew and every non-empty snapshot authority. */
  lemma InheritKnown(s: Spool, snapshot: seq<Row>, ids: seq<string>, now: int, parent: string, via: string, a: string)
    requires |ids| == |snapshot|
    ensures Known(Inherit(s, snapshot, ids, now, parent, via), a) <==> Known(s, a) || (a != "" && HasAuthority(snapshot, a))
  {
    hide Inherit, HasAuthority, CopiesFirst, FirstAuthority;
    var t := Inherit(s, snapshot, ids, now, parent, via);
    InheritAdds(s, snapshot, ids, now, parent, via);
    var added := t.pending[|s.pending|..];
    assert t.pending == s.pending + added;
    HasConcat(s.pending, added, a);
    assert HasAuthority(added, a) <==> Wanted(s, snapshot, a);
  }

  /** Inheriting what is already known changes nothing. */
  lemma {:induction false} InheritNothing(s: Spool, snapshot: seq<Row>, ids: seq<string>, now: int, parent: string, via: string)
    requires |ids| == |snapshot| && forall k :: 0 <= k < |snapshot| ==> snapshot[k].authority == "" || Known(s, snapshot[k].authority)
    ensures Inherit(s, snapshot, ids, now, parent, via) == s
    decreases |snapshot|
  {
    hide Known;
    if snapshot != [] {
      assert snapshot[0].authority == "" || Known(s, snapshot[0].authority);
      InheritNothing(s, snapshot[1..], ids[1..], now, parent, via);
    }
  }

  /* ---------- authorities are never forgotten ---------- */

  predicate HasDeed(deeds: multiset<Deed>, a: string) {
    exists d :: d in deeds && d.authority == a
  }

  lemma {:induction false} DeedAuthority(rows: seq<Row>, a: string)
    ensures HasAuthority(rows, a) <==> HasDeed(multiset(Deeds(rows)), a)
  {
    if rows == [] {
    } else {
      HasTail(rows, a);
      DeedAuthority(rows[1..], a);
      DeedSplit(multiset{DeedOf(rows[0])}, multiset(Deeds(rows[1..])), a);
      assert multiset(Deeds(rows)) == multiset{DeedOf(rows[0])} + multiset(Deeds(rows[1..]));
      assert DeedOf(rows[0]) in multiset{DeedOf(rows[0])};
    }
  }

  lemma DeedSplit(x: multiset<Deed>, y: multiset<Deed>, a: string)
    ensures HasDeed(x + y, a) <==> HasDeed(x, a) || HasDeed(y, a)
  {
    if HasDeed(x, a) {
      var d :| d in x && d.authority == a;
      assert d in x + y;
    }
    if HasDeed(y, a) {
      var d :| d in y && d.authority == a;
      assert d in x + y;
    }
  }

  lemma KnownHeld(s: Spool, a: string)
    ensures Known(s, a) <==> HasDeed(Held(s), a)
  {
    hide HasAuthority, HasDeed, Deeds;
    DeedAuthority(s.pending, a);
    DeedAuthority(s.delivered, a);
    DeedAuthority(s.expired, a);
    var p, d, e := multiset(Deeds(s.pending)), multiset(Deeds(s.delivered)), multiset(Deeds(s.expired));
    DeedSplit(p + d, e, a);
    DeedSplit(p, d, a);
  }

  /** An operation adds the authorities it deposits to the known ones and forgets none. */
  lemma StepKnown(s: Spool, id: string, op: Op, a: string)
    ensures Known(Apply(s, id, op), a) <==> Known(s, a) || HasAuthority(NewRows(s, id, op), a)
  {
    hide Known, HasAuthority, HasDeed, Deeds, Held, Apply, NewRows;
    StepConserves(s, id, op);
    KnownHeld(s, a);
    KnownHeld(Apply(s, id, op), a);
    DeedAuthority(NewRows(s, id, op), a);
    DeedSplit(Held(s), multiset(Deeds(NewRows(s, id, op))), a);
  }

  lemma {:induction false} RunKnown(s: Spool, id: string, ops: seq<Op>, a: string)
    requires Known(s, a)
    ensures Known(Exec(s, id, ops), a)
    decreases |ops|
  {
    hide Known, Apply, NewRows;
    if ops != [] {
      StepKnown(s, id, ops[0], a);
      RunKnown(Apply(s, id, ops[0]), id, ops[1..], a);
    }
  }

  /* ---------- what is eligible ---------- */

  /** The directive is not blank. */
  predicate Voiced(row: Row) {
    Strip(row.directive) != ""
  }

  lemma VoicedIs(row: Row)
    ensures HasText(row) <==> Voiced(row)
  {
  }

  /** Some row of authority `a` carries text. */
  predicate Speaks(rows: seq<Row>, a: string) {
    exists i :: 0 <= i < |rows| && rows[i].authority == a && Voiced(rows[i])
  }

  lemma SpeaksTail(rows: seq<Row>, a: string)
    requires rows != []
    ensures Speaks(rows, a) <==> (rows[0].authority == a && Voiced(rows[0])) || Speaks(rows[1..], a)
  {
    hide Voiced;
    if Speaks(rows[1..], a) {
      var i :| 0 <= i < |rows[1..]| && rows[1..][i].authority == a && Voiced(rows[1..][i]);
      assert rows[i + 1].authority == a && Voiced(rows[i + 1]);
    }
    if Speaks(rows, a) {
      var i :| 0 <= i < |rows| && rows[i].authority == a && Voiced(rows[i]);
      assert i > 0 ==> rows[1..][i - 1].authority == a && Voiced(rows[1..][i - 1]);
    }
  }

  lemma {:induction false} PendingSpeaks(rows: seq<Row>, a: string)
    ensures HasAuthority(PendingEligible(rows), a) <==> Speaks(rows, a)
  {
    hide Voiced, HasText;
    if rows != [] {
      VoicedIs(rows[0]);
      hide Speaks, HasAuthority;
      SpeaksTail(rows, a);
      PendingSpeaks(rows[1..], a);
      KeepSpeaks(rows[0], PendingEligible(rows[1..]), a);
      assert !Voiced(rows[0]) ==> [] + PendingEligible(rows[1..]) == PendingEligible(rows[1..]);
    }
  }

  lemma KeepSpeaks(r: Row, rest: seq<Row>, a: string)
    ensures HasAuthority([r] + rest, a) <==> r.authority == a || HasAuthority(rest, a)
  {
    hide HasAuthority;
    HasTail([r] + rest, a);
    assert ([r] + rest)[1..] == rest;
  }

  lemma {:induction false} ExpiredSpeaks(rows: seq<Row>, delivered: seq<Row>, a: string)
    ensures HasAuthority(ExpiredEligible(rows, delivered), a) <==> a != "" && !HasAuthority(delivered, a) && Speaks(rows, a)
  {
    hide Voiced, HasText;
    if rows == [] {
      hide HasAuthority;
      HasNone(a);
    } else {
      VoicedIs(rows[0]);
      hide Speaks, HasAuthority;
      SpeaksTail(rows, a);
      ExpiredSpeaks(rows[1..], delivered, a);
      KeepSpeaks(rows[0], ExpiredEligible(rows[1..], delivered), a);
      var keep := rows[0].authority != "" && !HasAuthority(delivered, rows[0].authority) && Voiced(rows[0]);
      assert !keep ==> ExpiredEligible(rows, delivered) == ExpiredEligible(rows[1..], delivered);
    }
  }

  lemma {:induction false} PendingEligibleIs(rows: seq<Row>)
    ensures PendingEligible(rows) == Filter(rows, (r: Row) => Voiced(r))
  {
    hide Strip;
    if rows != [] {
      PendingEligibleIs(rows[1..]);
    }
  }

  lemma {:induction false} ExpiredEligibleIs(rows: seq<Row>, delivered: seq<Row>)
    ensures ExpiredEligible(rows, delivered) == Filter(rows, (r: Row) => Voiced(r) && r.authority != "" && NoneOf(delivered, r.authority))
  {
    hide Strip;
    if rows != [] {
      ExpiredEligibleIs(rows[1..], delivered);
      NoneOfIs(delivered, rows[0].authority);
      hide HasAuthority, NoneOf;
    }
  }

  predicate NoneOf(rows: seq<Row>, a: string) {
    forall i :: 0 <= i < |rows| ==> rows[i].authority != a
  }

  lemma NoneOfIs(rows: seq<Row>, a: string)
    ensures NoneOf(rows, a) <==> !HasAuthority(rows, a)
  {
  }

  /**
   * Eligible are, in this order, the pending rows with text and the expired rows with text and an authority that no
   * delivered row has.
   */
  lemma EligibleIs(s: Spool)
    ensures Eligible(s) == Filter(s.pending, (r: Row) => Voiced(r))
      + Filter(s.expired, (r: Row) => Voiced(r) && r.authority != "" && NoneOf(s.delivered, r.authority))
  {
    hide Strip, Filter;
    PendingEligibleIs(s.pending);
    ExpiredEligibleIs(s.expired, s.delivered);
  }

  /** An authority is owed while some row with text is pending, or expired and the authority never delivered. */
  predicate Owed(s: Spool, a: string) {
    Speaks(s.pending, a) || (a != "" && !HasAuthority(s.delivered, a) && Speaks(s.expired, a))
  }

  lemma EligibleOwed(s: Spool, a: string)
    ensures HasAuthority(Eligible(s), a) <==> Owed(s, a)
  {
    hide HasAuthority, Speaks, PendingEligible, ExpiredEligible;
    PendingSpeaks(s.pending, a);
    ExpiredSpeaks(s.expired, s.delivered, a);
    HasConcat(PendingEligible(s.pending), ExpiredEligible(s.expired, s.delivered), a);
  }

  lemma ClaimOwes(s: Spool, now: int, allow: bool, a: string)
    requires Speaks(Claim(s, now, allow).0.pending, a)
    ensures Speaks(s.pending, a)
  {
    var t := Claim(s, now, allow).0;
    var i :| 0 <= i < |t.pending| && t.pending[i].authority == a && Voiced(t.pending[i]);
    assert s.pending[i].authority == a && Voiced(s.pending[i]);
  }

  lemma MarkOwes(s: Spool, id: string, entryId: string, at: int, via: string, a: string)
    requires Owed(Mark(s, id, entryId, at, via), a)
    ensures Owed(s, a)
  {
    hide Voiced;
    var t, i := Mark(s, id, entryId, at, via), FirstId(s.pending, entryId);
    if i < |s.pending| {
      if Speaks(t.pending, a) {
        var k :| 0 <= k < |t.pending| && t.pending[k].authority == a && Voiced(t.pending[k]);
        assert t.pending[k] == s.pending[if k < i then k else k + 1];
      } else if HasAuthority(s.delivered, a) {
        HasConcat(s.delivered, t.delivered[|s.delivered|..], a);
      }
    }
  }

  lemma SpeaksConcat(x: seq<Row>, y: seq<Row>, a: string)
    requires Speaks(x + y, a)
    ensures Speaks(x, a) || Speaks(y, a)
  {
    hide Voiced;
    var i :| 0 <= i < |x + y| && (x + y)[i].authority == a && Voiced((x + y)[i]);
    if i < |x| {
      assert x[i].authority == a && Voiced(x[i]);
    } else {
      assert y[i - |x|].authority == a && Voiced(y[i - |x|]);
    }
  }

  lemma ExpiredRowsSpeak(rows: seq<Row>, at: int, reason: string, a: string)
    requires Speaks(ExpireRows(rows, at, reason), a)
    ensures Speaks(rows, a)
  {
    var moved := ExpireRows(rows, at, reason);
    var i :| 0 <= i < |moved| && moved[i].authority == a && Voiced(moved[i]);
    assert moved[i].directive == rows[i].directive && rows[i].authority == a && Voiced(rows[i]);
  }

  lemma ExpireOwes(s: Spool, id: string, at: int, reason: string, a: string)
    requires Owed(Expire(s, id, at, reason), a)
    ensures Owed(s, a)
  {
    if s.pending != [] {
      assert !Speaks([], a);
      hide HasAuthority, Speaks, ExpireRows;
      SpeaksConcat(s.expired, ExpireRows(s.pending, at, reason), a);
      if Speaks(ExpireRows(s.pending, at, reason), a) {
        ExpiredRowsSpeak(s.pending, at, reason, a);
      }
    }
  }

  predicate Deposits(op: Op) {
    op.OpAppend? || op.OpInherit?
  }

  /** Without deposits nothing new becomes owed. */
  lemma StepOwes(s: Spool, id: string, op: Op, a: string)
    requires !Deposits(op) && Owed(Apply(s, id, op), a)
    ensures Owed(s, a)
  {
    hide Claim, Mark, Expire, HasAuthority, Speaks;
    match op
    case OpClaim(now, allow) =>
      ClaimKeeps(s, now, allow);
      if Speaks(Claim(s, now, allow).0.pending, a) { ClaimOwes(s, now, allow, a); }
    case OpMark(entryId, at, via) => MarkOwes(s, id, entryId, at, via, a);
    case OpConsume(live, now, at, via) =>
      ClaimKeeps(s, now, live.Alive?);
      var (c, row) := Claim(s, now, live.Alive?);
      if !live.Ended? && row.Some? {
        MarkOwes(c, id, row.value.entryId, at, via, a);
        if Speaks(c.pending, a) { ClaimOwes(s, now, live.Alive?, a); }
      }
    case OpExpire(at, reason) => ExpireOwes(s, id, at, reason, a);
  }

  lemma {:induction false} RunOwes(s: Spool, id: string, ops: seq<Op>, a: string)
    requires (forall i :: 0 <= i < |ops| ==> !Deposits(ops[i])) && Owed(Exec(s, id, ops), a)
    ensures Owed(s, a)
    decreases |ops|
  {
    hide Apply, Owed;
    if ops != [] {
      RunOwes(Apply(s, id, ops[0]), id, ops[1..], a);
      StepOwes(s, id, ops[0], a);
    }
  }

  /**
   * Repeating an inherit adds nothing, whatever happened to the child in between and whatever the parent
   * claimed, delivered or expired in between.
   */
  lemma InheritTwice(parent: Spool, child: Spool, parentId: string, childId: string, parentOps: seq<Op>, childOps: seq<Op>,
                     ids: seq<string>, ids': seq<string>, now: int, now': int, via: string, via': string)
    requires forall i :: 0 <= i < |parentOps| ==> !Deposits(parentOps[i])
    requires |ids| == |Eligible(parent)| && |ids'| == |Eligible(Exec(parent, parentId, parentOps))|
    ensures var first := InheritInto(child, childId, Eligible(parent), ids, now, parentId, via);
      var later := Exec(first, childId, childOps);
      InheritInto(later, childId, Eligible(Exec(parent, parentId, parentOps)), ids', now', parentId, via') == later
  {
    hide Known, Owed, Eligible, Exec, Inherit, HasAuthority;
    var first := InheritInto(child, childId, Eligible(parent), ids, now, parentId, via);
    var later, parent' := Exec(first, childId, childOps), Exec(parent, parentId, parentOps);
    var snapshot := Eligible(parent');
    forall k | 0 <= k < |snapshot| ensures snapshot[k].authority == "" || Known(later, snapshot[k].authority) {
      var a := snapshot[k].authority;
      if a != "" {
        HasAuthorityIn(snapshot, k);
        EligibleOwed(parent', a);
        assert Owed(Exec(parent, parentId, parentOps), a);
        RunOwes(parent, parentId, parentOps, a);
        EligibleOwed(parent, a);
        IntoKnown(child, childId, Eligible(parent), ids, now, parentId, via, a);
        RunKnown(first, childId, childOps, a);
      }
    }
    InheritNothing(later, snapshot, ids', now', parentId, via');
  }

  lemma IntoKnown(s: Spool, childId: string, snapshot: seq<Row>, ids: seq<string>, now: int, parent: string, via: string, a: string)
    requires |ids| == |snapshot|
    ensures Known(InheritInto(s, childId, snapshot, ids, now, parent, via), a) <==> Known(s, a) || (a != "" && HasAuthority(snapshot, a))
  {
    hide Inherit, HasAuthority;
    InheritKnown(s, snapshot, ids, now, parent, via, a);
    InheritGrows(s, snapshot, ids, now, parent, via);
  }
}
