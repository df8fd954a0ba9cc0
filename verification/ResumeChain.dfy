/** A dispatch resumed over and over: each link inherits what its predecessor still owes. */
module ResumeChain {
  import opened Text
  import opened Spool
  import opened SpoolRuns
  import opened SpoolInherit

  /** One spool per dispatch; `cur` is the running one, the later ones have not been resumed into yet. */
  datatype Chain = Chain(spools: seq<Spool>, cur: nat, name: nat -> string)

  datatype Move =
    | Act(i: nat, op: Op)
    | Resume(ids: seq<string>, now: int, via: string)

  predicate ValidChain(c: Chain) {
    c.cur < |c.spools|
  }

  /** One authority id and the one directive it stands for. */
  datatype Pledge = Pledge(authority: string, directive: string)

  /** A row of the pledged authority carries the pledged directive; rows of other authorities carry anything. */
  predicate Says(pledge: Pledge, row: Row) {
    row.authority == pledge.authority ==> row.directive == pledge.directive
  }

  /**
   * Any process may claim, mark, consume or expire any spool at any time, and deposit rows of other authorities
   * anywhere. Deposits of the pledged authority go to the running dispatch or a later one, and keep the pledge.
   */
  predicate Allowed(c: Chain, move: Move, pledge: Pledge) {
    match move
    case Act(i, op) =>
      i < |c.spools| && !op.OpInherit? &&
      (op.OpAppend? && op.row.authority == pledge.authority ==> c.cur <= i && op.row.directive == pledge.directive)
    case Resume(ids, _, _) =>
      c.cur + 1 < |c.spools| && |ids| == |Eligible(c.spools[c.cur])|
  }

  function Do(c: Chain, move: Move): (r: Chain)
    requires ValidChain(c)
    ensures ValidChain(r) && |r.spools| == |c.spools| && c.cur <= r.cur
  {
    match move
    case Act(i, op) =>
      if i < |c.spools| then c.(spools := c.spools[i := Apply(c.spools[i], c.name(i), op)]) else c
    case Resume(ids, now, via) =>
      if c.cur + 1 < |c.spools| && |ids| == |Eligible(c.spools[c.cur])|
      then Chain(c.spools[c.cur + 1 := Child(c, ids, now, via)], c.cur + 1, c.name)
      else c
  }

  function Child(c: Chain, ids: seq<string>, now: int, via: string): Spool
    requires c.cur + 1 < |c.spools| && |ids| == |Eligible(c.spools[c.cur])|
  {
    InheritInto(c.spools[c.cur + 1], c.name(c.cur + 1), Eligible(c.spools[c.cur]), ids, now, c.name(c.cur), via)
  }

  function Follow(c: Chain, moves: seq<Move>): (r: Chain)
    requires ValidChain(c)
    ensures ValidChain(r) && |r.spools| == |c.spools| && c.cur <= r.cur
    decreases |moves|
  {
    if moves == [] then c else Follow(Do(c, moves[0]), moves[1..])
  }

  predicate AllAllowed(c: Chain, moves: seq<Move>, pledge: Pledge)
    requires ValidChain(c)
    decreases |moves|
  {
    moves == [] || (Allowed(c, moves[0], pledge) && AllAllowed(Do(c, moves[0]), moves[1..], pledge))
  }

  /* ---------- every row says what its authority says ---------- */

  predicate AllSay(pledge: Pledge, rows: seq<Row>) {
    forall k :: 0 <= k < |rows| ==> Says(pledge, rows[k])
  }

  predicate SpoolSays(pledge: Pledge, s: Spool) {
    AllSay(pledge, s.pending) && AllSay(pledge, s.delivered) && AllSay(pledge, s.expired)
  }

  predicate DeedsSay(pledge: Pledge, deeds: multiset<Deed>) {
    forall d :: d in deeds && d.authority == pledge.authority ==> d.directive == pledge.directive
  }

  lemma {:induction false} RowsSay(pledge: Pledge, rows: seq<Row>)
    ensures AllSay(pledge, rows) <==> DeedsSay(pledge, multiset(Deeds(rows)))
  {
    if rows != [] {
      RowsSay(pledge, rows[1..]);
      assert AllSay(pledge, rows) <==> Says(pledge, rows[0]) && AllSay(pledge, rows[1..]) by {
        if Says(pledge, rows[0]) && AllSay(pledge, rows[1..]) {
          forall k | 0 <= k < |rows| ensures Says(pledge, rows[k]) {
            assert k > 0 ==> rows[k] == rows[1..][k - 1];
          }
        }
      }
      hide AllSay;
      var x, y := multiset{DeedOf(rows[0])}, multiset(Deeds(rows[1..]));
      assert multiset(Deeds(rows)) == x + y;
      DeedsSayBoth(pledge, x, y);
      assert DeedOf(rows[0]) in x;
    }
  }

  lemma DeedsSayBoth(pledge: Pledge, x: multiset<Deed>, y: multiset<Deed>)
    ensures DeedsSay(pledge, x + y) <==> DeedsSay(pledge, x) && DeedsSay(pledge, y)
  {
    assert forall d :: d in x ==> d in x + y;
    assert forall d :: d in y ==> d in x + y;
  }

  lemma SpoolSaysHeld(pledge: Pledge, s: Spool)
    ensures SpoolSays(pledge, s) <==> DeedsSay(pledge, Held(s))
  {
    hide AllSay, DeedsSay, Deeds;
    RowsSay(pledge, s.pending);
    RowsSay(pledge, s.delivered);
    RowsSay(pledge, s.expired);
    var p, d, e := multiset(Deeds(s.pending)), multiset(Deeds(s.delivered)), multiset(Deeds(s.expired));
    DeedsSayBoth(pledge, p + d, e);
    DeedsSayBoth(pledge, p, d);
  }

  lemma StepSays(pledge: Pledge, s: Spool, id: string, op: Op)
    requires SpoolSays(pledge, s) && AllSay(pledge, NewRows(s, id, op))
    ensures SpoolSays(pledge, Apply(s, id, op))
  {
    hide AllSay, DeedsSay, Deeds, Held, Apply, NewRows, SpoolSays;
    StepConserves(s, id, op);
    SpoolSaysHeld(pledge, s);
    SpoolSaysHeld(pledge, Apply(s, id, op));
    RowsSay(pledge, NewRows(s, id, op));
    DeedsSayBoth(pledge, Held(s), multiset(Deeds(NewRows(s, id, op))));
  }

  lemma ActSays(pledge: Pledge, s: Spool, id: string, op: Op)
    requires SpoolSays(pledge, s) && !op.OpInherit?
    requires op.OpAppend? && op.row.authority == pledge.authority ==> op.row.directive == pledge.directive
    ensures SpoolSays(pledge, Apply(s, id, op))
  {
    hide SpoolSays, Claim, Mark, Consume, Expire, HasAuthority;
    StepSays(pledge, s, id, op);
  }

  lemma {:induction false} EligibleSays(pledge: Pledge, s: Spool)
    requires SpoolSays(pledge, s)
    ensures AllSay(pledge, Eligible(s))
  {
    PendingSays(pledge, s.pending);
    ExpiredSays(pledge, s.expired, s.delivered);
  }

  lemma {:induction false} PendingSays(pledge: Pledge, rows: seq<Row>)
    requires AllSay(pledge, rows)
    ensures AllSay(pledge, PendingEligible(rows))
  {
    hide HasText;
    if rows != [] {
      PendingSays(pledge, rows[1..]);
    }
  }

  lemma {:induction false} ExpiredSays(pledge: Pledge, rows: seq<Row>, delivered: seq<Row>)
    requires AllSay(pledge, rows)
    ensures AllSay(pledge, ExpiredEligible(rows, delivered))
  {
    hide HasText, HasAuthority;
    if rows != [] {
      ExpiredSays(pledge, rows[1..], delivered);
    }
  }

  lemma InheritSays(pledge: Pledge, s: Spool, childId: string, snapshot: seq<Row>, ids: seq<string>,
                    now: int, parent: string, via: string)
    requires |ids| == |snapshot| && SpoolSays(pledge, s) && AllSay(pledge, snapshot)
    ensures SpoolSays(pledge, InheritInto(s, childId, snapshot, ids, now, parent, via))
  {
    hide Inherit, Wanted, HasAuthority, FirstAuthority;
    InheritAdds(s, snapshot, ids, now, parent, via);
    var t := Inherit(s, snapshot, ids, now, parent, via);
    var added := t.pending[|s.pending|..];
    forall k | 0 <= k < |added| ensures Says(pledge, added[k]) {
      assert CopiesFirst(added[k], snapshot, ids, now, parent, via);
    }
    assert t.pending == s.pending + added;
  }

  /* ---------- the invariant ---------- */

  predicate DeliveredBy(c: Chain, a: string)
    requires ValidChain(c)
  {
    exists j :: 0 <= j <= c.cur && HasAuthority(c.spools[j].delivered, a)
  }

  /** What any link knows has been delivered by a link, or the running link knows it. */
  predicate Kept(c: Chain, a: string)
    requires ValidChain(c)
  {
    (exists i :: 0 <= i <= c.cur && Known(c.spools[i], a)) ==> DeliveredBy(c, a) || Known(c.spools[c.cur], a)
  }

  ghost predicate Inv(c: Chain, pledge: Pledge)
    requires ValidChain(c)
  {
    && (forall i :: 0 <= i < |c.spools| ==> SpoolSays(pledge, c.spools[i]))
    && (pledge.authority != "" && Strip(pledge.directive) != "" ==> Kept(c, pledge.authority))
  }

  lemma DeliveredStays(s: Spool, id: string, op: Op, a: string)
    requires HasAuthority(s.delivered, a)
    ensures HasAuthority(Apply(s, id, op).delivered, a)
  {
    hide Apply, Held, NewRows;
    StepConserves(s, id, op);
    var t := Apply(s, id, op);
    var k :| 0 <= k < |s.delivered| && s.delivered[k].authority == a;
    assert t.delivered[k] == s.delivered[k];
  }

  lemma AppendedRows(s: Spool, id: string, row: Row)
    ensures NewRows(s, id, OpAppend(row)) == [] || NewRows(s, id, OpAppend(row)) == [row]
  {
    hide HasAuthority;
    assert (s.pending + [row])[|s.pending|..] == [row];
    assert s.pending[|s.pending|..] == [];
  }

  /** Only deposits of an authority teach it to a spool. */
  lemma ActKnown(c: Chain, move: Move, pledge: Pledge, a: string, i: nat)
    requires ValidChain(c) && move.Act? && Allowed(c, move, pledge) && a == pledge.authority
    requires i <= c.cur && Known(Do(c, move).spools[i], a)
    ensures Known(c.spools[i], a) || i == c.cur
  {
    hide Known, Apply, HasAuthority, NewRows;
    if i == move.i {
      StepKnown(c.spools[i], c.name(i), move.op, a);
      HasNone(a);
      if move.op.OpAppend? {
        AppendedRows(c.spools[i], c.name(i), move.op.row);
        HasTail([move.op.row], a);
        assert [move.op.row][1..] == [];
      } else {
        NothingNew(c.spools[i], c.name(i), move.op);
      }
    }
  }

  lemma NothingNew(s: Spool, id: string, op: Op)
    requires !op.OpAppend? && !op.OpInherit?
    ensures NewRows(s, id, op) == []
  {
  }

  lemma ActKeeps(c: Chain, move: Move, pledge: Pledge, a: string)
    requires ValidChain(c) && move.Act? && Allowed(c, move, pledge) && a == pledge.authority && Kept(c, a)
    ensures Kept(Do(c, move), a)
  {
    hide Known, Apply, HasAuthority;
    var d := Do(c, move);
    if i :| 0 <= i <= d.cur && Known(d.spools[i], a) {
      ActKnown(c, move, pledge, a, i);
      if Known(c.spools[i], a) {
        if DeliveredBy(c, a) {
          var j :| 0 <= j <= c.cur && HasAuthority(c.spools[j].delivered, a);
          if j == move.i { DeliveredStays(c.spools[j], c.name(j), move.op, a); }
          assert HasAuthority(d.spools[j].delivered, a);
        } else if move.i == c.cur {
          StepKnown(c.spools[c.cur], c.name(c.cur), move.op, a);
        }
      }
    }
  }

  lemma SpeaksIfSaid(rows: seq<Row>, pledge: Pledge, a: string)
    requires AllSay(pledge, rows) && a == pledge.authority && Strip(pledge.directive) != "" && HasAuthority(rows, a)
    ensures Speaks(rows, a)
  {
    var k :| 0 <= k < |rows| && rows[k].authority == a;
    assert Says(pledge, rows[k]) && Voiced(rows[k]);
  }

  /** A link hands on every authority it knows and has not delivered. */
  lemma HandsOn(s: Spool, pledge: Pledge, a: string)
    requires SpoolSays(pledge, s) && a == pledge.authority != "" && Strip(pledge.directive) != ""
    requires Known(s, a) && !HasAuthority(s.delivered, a)
    ensures HasAuthority(Eligible(s), a)
  {
    hide Speaks, HasAuthority, AllSay, Eligible;
    EligibleOwed(s, a);
    if HasAuthority(s.pending, a) {
      SpeaksIfSaid(s.pending, pledge, a);
    } else {
      SpeaksIfSaid(s.expired, pledge, a);
    }
  }

  lemma ResumeKeeps(c: Chain, move: Move, pledge: Pledge, a: string)
    requires ValidChain(c) && move.Resume? && Allowed(c, move, pledge)
    requires SpoolSays(pledge, c.spools[c.cur]) && a == pledge.authority != "" && Strip(pledge.directive) != "" && Kept(c, a)
    ensures Kept(Do(c, move), a)
  {
    hide Known, Eligible, HasAuthority, SpoolSays, InheritInto;
    var d := Do(c, move);
    var parent := c.spools[c.cur];
    if i :| 0 <= i <= d.cur && Known(d.spools[i], a) {
      if i <= c.cur {
        assert Known(c.spools[i], a);
        if DeliveredBy(c, a) {
          var j :| 0 <= j <= c.cur && HasAuthority(c.spools[j].delivered, a);
          assert HasAuthority(d.spools[j].delivered, a);
        } else {
          assert !HasAuthority(parent.delivered, a);
          HandsOn(parent, pledge, a);
          IntoKnown(c.spools[c.cur + 1], c.name(c.cur + 1), Eligible(parent), move.ids, move.now, c.name(c.cur), move.via, a);
        }
      }
    }
  }

  lemma StepInv(c: Chain, move: Move, pledge: Pledge)
    requires ValidChain(c) && Inv(c, pledge) && Allowed(c, move, pledge)
    ensures Inv(Do(c, move), pledge)
  {
    hide SpoolSays, Kept, Apply, InheritInto, Eligible, AllSay, Says;
    var d := Do(c, move);
    match move {
      case Act(i, op) =>
        ActSays(pledge, c.spools[i], c.name(i), op);
        if pledge.authority != "" && Strip(pledge.directive) != "" { ActKeeps(c, move, pledge, pledge.authority); }
      case Resume(ids, now, via) =>
        EligibleSays(pledge, c.spools[c.cur]);
        InheritSays(pledge, c.spools[c.cur + 1], c.name(c.cur + 1), Eligible(c.spools[c.cur]), ids, now, c.name(c.cur), via);
        if pledge.authority != "" && Strip(pledge.directive) != "" { ResumeKeeps(c, move, pledge, pledge.authority); }
    }
  }

  lemma {:induction false} RunInv(c: Chain, moves: seq<Move>, pledge: Pledge)
    requires ValidChain(c) && Inv(c, pledge) && AllAllowed(c, moves, pledge)
    ensures Inv(Follow(c, moves), pledge)
    decreases |moves|
  {
    hide Inv, Allowed, Do;
    if moves != [] {
      StepInv(c, moves[0], pledge);
      RunInv(Do(c, moves[0]), moves[1..], pledge);
    }
  }

  /** Some row carries this authority and this directive. */
  predicate Carries(rows: seq<Row>, a: string, directive: string) {
    exists k :: 0 <= k < |rows| && rows[k].authority == a && rows[k].directive == directive
  }

  predicate InSpool(s: Spool, row: Row) {
    row in s.pending || row in s.delivered || row in s.expired
  }

  lemma CarriesSaid(rows: seq<Row>, pledge: Pledge, a: string)
    requires AllSay(pledge, rows) && a == pledge.authority && HasAuthority(rows, a)
    ensures Carries(rows, a, pledge.directive)
  {
    var k :| 0 <= k < |rows| && rows[k].authority == a;
    assert Says(pledge, rows[k]);
  }

  lemma InSpoolKnown(s: Spool, row: Row)
    requires InSpool(s, row)
    ensures Known(s, row.authority)
  {
    forall rows: seq<Row> | row in rows ensures HasAuthority(rows, row.authority) {
      var k :| 0 <= k < |rows| && rows[k] == row;
      HasAuthorityIn(rows, k);
    }
  }

  lemma InSpoolSays(s: Spool, row: Row, pledge: Pledge)
    requires InSpool(s, row) && SpoolSays(pledge, s) && row.authority == pledge.authority
    ensures row.directive == pledge.directive
  {
    assert Says(pledge, row);
  }

  function Start(n: nat, name: nat -> string): (c: Chain)
    requires n > 0
    ensures ValidChain(c)
  {
    Chain(seq(n, _ => EMPTY), 0, name)
  }

  /**
   * Along a chain of any length, a directive with text and a non-empty authority that is on record in any link
   * has been delivered by some link, or the running link still has it on record undelivered. Nothing is asked of
   * other authorities; this one must not be reused for another directive or deposited into a link already resumed.
   */
  lemma NoDirectiveLost(n: nat, name: nat -> string, moves: seq<Move>, i: nat, row: Row)
    requires n > 0 && AllAllowed(Start(n, name), moves, Pledge(row.authority, row.directive))
    requires var c := Follow(Start(n, name), moves); i <= c.cur && InSpool(c.spools[i], row)
    requires row.authority != "" && Strip(row.directive) != ""
    ensures var c := Follow(Start(n, name), moves);
      || (exists j :: 0 <= j <= c.cur && Carries(c.spools[j].delivered, row.authority, row.directive))
      || Carries(c.spools[c.cur].pending, row.authority, row.directive)
      || Carries(c.spools[c.cur].expired, row.authority, row.directive)
  {
    hide AllAllowed, Follow, InSpool, Carries, HasAuthority, AllSay;
    var c, a, pledge := Follow(Start(n, name), moves), row.authority, Pledge(row.authority, row.directive);
    StartInv(n, name, pledge);
    RunInv(Start(n, name), moves, pledge);
    InSpoolKnown(c.spools[i], row);
    InSpoolSays(c.spools[i], row, pledge);
    assert Kept(c, a);
    if DeliveredBy(c, a) {
      var j :| 0 <= j <= c.cur && HasAuthority(c.spools[j].delivered, a);
      CarriesSaid(c.spools[j].delivered, pledge, a);
    } else {
      var last := c.spools[c.cur];
      assert !HasAuthority(last.delivered, a);
      if HasAuthority(last.pending, a) {
        CarriesSaid(last.pending, pledge, a);
      } else {
        CarriesSaid(last.expired, pledge, a);
      }
    }
  }

  lemma StartInv(n: nat, name: nat -> string, pledge: Pledge)
    requires n > 0
    ensures Inv(Start(n, name), pledge)
  {
  }

  /* ---------- one authority for two directives ---------- */

  /** Into a fresh child, exactly the first eligible directive of an authority survives. */
  lemma ResumeKeepsFirst(parent: Spool, childId: string, ids: seq<string>, now: int, parentId: string, via: string,
                         a: string, directive: string)
    requires |ids| == |Eligible(parent)| && a != ""
    ensures var child := InheritInto(EMPTY, childId, Eligible(parent), ids, now, parentId, via);
      var k := FirstAuthority(Eligible(parent), a);
      Carries(child.pending, a, directive) <==> k < |Eligible(parent)| && Eligible(parent)[k].directive == directive
  {
    hide Inherit, Eligible, FirstAuthority;
    var rows := Eligible(parent);
    InheritAdds(EMPTY, rows, ids, now, parentId, via);
    var child, k := InheritInto(EMPTY, childId, rows, ids, now, parentId, via), FirstAuthority(rows, a);
    var added := child.pending;
    assert added == Inherit(EMPTY, rows, ids, now, parentId, via).pending[0..];
    assert HasAuthority(added, a) <==> Wanted(EMPTY, rows, a);
    forall i | 0 <= i < |added| && added[i].authority == a
      ensures k < |rows| && added[i].directive == rows[k].directive
    {
      assert CopiesFirst(added[i], rows, ids, now, parentId, via);
    }
  }

  /** Deposit and deliver one directive, deposit another under the same authority, close, and resume. */
  function ReuseMoves(one: Row, two: Row): seq<Move> {
    [Act(0, OpAppend(one)), Act(0, OpConsume(Alive, 0, 0, "")), Act(0, OpAppend(two)), Act(0, OpExpire(1, "closed")), Resume([], 1, "")]
  }

  function Done(row: Row): Row {
    row.(claimed := true, outcome := DeliveredAt(0, ""))
  }

  function Gone(row: Row): Row {
    row.(claimed := true, outcome := ExpiredAt(1, "closed"))
  }

  lemma ReuseRun(one: Row, two: Row, id: string)
    requires one.authority == two.authority && !one.claimed
    ensures Append(EMPTY, id, one) == Spool(id, [one], [], [])
    ensures Apply(Spool(id, [one], [], []), id, OpConsume(Alive, 0, 0, "")) == Spool(id, [], [Done(one)], [])
    ensures Append(Spool(id, [], [Done(one)], []), id, two) == Spool(id, [two], [Done(one)], [])
    ensures Expire(Spool(id, [two], [Done(one)], []), id, 1, "closed") == Spool(id, [], [Done(one)], [Gone(two)])
  {
    hide Consume;
    assert Append(EMPTY, id, one) == Spool(id, [one], [], []);
    var s := Spool(id, [one], [], []);
    ConsumeTakesFirst(s, id, 0, 0, "");
    ConsumeSets(s, id);
    assert ExpireRows([two], 1, "closed") == [Gone(two)];
  }

  lemma ConsumeSets(s: Spool, id: string)
    requires s.dispatchId == id && s.expired == []
    ensures var t := Consume(s, id, Alive, 0, 0, "").0; t.dispatchId == id && t.expired == []
  {
    hide FirstClaimable, FirstId;
  }

  lemma NothingEligible(one: Row, two: Row, id: string)
    requires one.authority == two.authority
    ensures Eligible(Spool(id, [], [Done(one)], [Gone(two)])) == []
  {
    assert [Done(one)][0].authority == two.authority;
    assert [Gone(two)][1..] == [];
    assert ExpiredEligible([Gone(two)], [Done(one)]) == [] + ExpiredEligible([], [Done(one)]);
  }

  /** Where the two links stand after those moves. */
  lemma ReuseEnds(one: Row, two: Row, name: nat -> string)
    requires one.authority == two.authority && !one.claimed
    ensures Follow(Start(2, name), ReuseMoves(one, two))
         == Chain([Spool(name(0), [], [Done(one)], [Gone(two)]), EMPTY], 1, name)
  {
    hide Apply, Eligible, InheritInto, Done, Gone;
    var id, moves := name(0), ReuseMoves(one, two);
    ReuseRun(one, two, id);
    NothingEligible(one, two, id);
    assert Apply(EMPTY, id, OpAppend(one)) == Append(EMPTY, id, one) by { AppendApplies(EMPTY, id, one); }
    AppendApplies(Spool(id, [], [Done(one)], []), id, two);
    ExpireApplies(Spool(id, [two], [Done(one)], []), id);
    InheritNone(name(1), id);
    var c0 := Start(2, name);
    assert c0.spools == [EMPTY, EMPTY];
    var c1 := Chain([Spool(id, [one], [], []), EMPTY], 0, name);
    var c2 := Chain([Spool(id, [], [Done(one)], []), EMPTY], 0, name);
    var c3 := Chain([Spool(id, [two], [Done(one)], []), EMPTY], 0, name);
    var c4 := Chain([Spool(id, [], [Done(one)], [Gone(two)]), EMPTY], 0, name);
    assert Do(c0, moves[0]) == c1 && Do(c1, moves[1]) == c2 && Do(c2, moves[2]) == c3 && Do(c3, moves[3]) == c4;
    assert Do(c4, moves[4]) == Chain([c4.spools[0], EMPTY], 1, name);
    hide Do;
    FollowFive(c0, moves);
  }

  lemma AppendApplies(s: Spool, id: string, row: Row)
    ensures Apply(s, id, OpAppend(row)) == Append(s, id, row)
  {
    hide Append;
  }

  lemma ExpireApplies(s: Spool, id: string)
    ensures Apply(s, id, OpExpire(1, "closed")) == Expire(s, id, 1, "closed")
  {
    hide Expire;
  }

  lemma InheritNone(childId: string, parentId: string)
    ensures InheritInto(EMPTY, childId, [], [], 1, parentId, "") == EMPTY
  {
  }

  lemma FollowStep(c: Chain, moves: seq<Move>)
    requires ValidChain(c)
    ensures moves == [] ==> Follow(c, moves) == c
    ensures moves != [] ==> Follow(c, moves) == Follow(Do(c, moves[0]), moves[1..])
  {
    hide Do;
  }

  lemma FollowFive(c: Chain, moves: seq<Move>)
    requires ValidChain(c) && |moves| == 5
    ensures Follow(c, moves) == Do(Do(Do(Do(Do(c, moves[0]), moves[1]), moves[2]), moves[3]), moves[4])
  {
    hide Do, Follow;
    var c1 := Do(c, moves[0]);
    var c2 := Do(c1, moves[1]);
    var c3 := Do(c2, moves[2]);
    var c4 := Do(c3, moves[3]);
    FollowStep(c, moves);
    FollowStep(c1, moves[1..]);
    FollowStep(c2, moves[2..]);
    FollowStep(c3, moves[3..]);
    FollowStep(c4, moves[4..]);
    FollowStep(Do(c4, moves[4]), []);
    assert moves[1..][1..] == moves[2..] && moves[2..][1..] == moves[3..] && moves[3..][1..] == moves[4..] && moves[4..][1..] == [];
  }

  /**
   * The condition on reuse cannot be dropped: for any authority and any two different directives there is a chain that
   * records the second one and then neither delivers it nor has it on record in the running link.
   */
  lemma ReusedAuthorityLosesDirective(one: Row, two: Row, name: nat -> string)
    requires one.authority == two.authority != "" && one.directive != two.directive && Strip(two.directive) != ""
    requires !one.claimed && !two.claimed
    ensures var c := Follow(Start(2, name), ReuseMoves(one, two));
      && c.cur == 1 && Carries(c.spools[0].expired, two.authority, two.directive)
      && (forall j :: 0 <= j <= 1 ==> !Carries(c.spools[j].delivered, two.authority, two.directive))
      && !Carries(c.spools[1].pending, two.authority, two.directive) && !Carries(c.spools[1].expired, two.authority, two.directive)
  {
    hide Follow, ReuseMoves;
    ReuseEnds(one, two, name);
    assert [Gone(two)][0].directive == two.directive;
  }

  /** Nor can the one on late deposits: a row deposited into a link already resumed stays behind. */
  lemma LateDepositStaysBehind(row: Row, name: nat -> string)
    ensures var c := Follow(Start(2, name), [Resume([], 1, ""), Act(0, OpAppend(row))]);
      && c.cur == 1 && Carries(c.spools[0].pending, row.authority, row.directive)
      && c.spools[1] == EMPTY && c.spools[0].delivered == []
  {
    hide Apply, Eligible, InheritInto, Follow;
    var c0, moves := Start(2, name), [Resume([], 1, ""), Act(0, OpAppend(row))];
    NoneEligible();
    InheritNone(name(1), name(0));
    var c1 := Chain([EMPTY, EMPTY], 1, name);
    assert c0.spools == [EMPTY, EMPTY] && Do(c0, moves[0]) == c1;
    AppendApplies(EMPTY, name(0), row);
    assert Append(EMPTY, name(0), row) == Spool(name(0), [row], [], []);
    var c2 := Chain([Spool(name(0), [row], [], []), EMPTY], 1, name);
    assert Do(c1, moves[1]) == c2;
    FollowStep(c0, moves);
    FollowStep(c1, moves[1..]);
    FollowStep(c2, moves[2..]);
    assert moves[1..][0] == moves[1] && moves[1..][1..] == moves[2..] == [];
    assert [row][0].directive == row.directive;
  }

  lemma NoneEligible()
    ensures Eligible(EMPTY) == []
  {
  }
}
