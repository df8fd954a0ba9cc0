/** Which results become ledger rows, field by field, and the text rules they rest on. */
module LedgerPins {
  import opened Text
  import opened Ledger
  import opened LedgerRuns

  /* ---------- bus prefixes ---------- */

  predicate StandsAt(text: string, part: string, i: nat) {
    i + |part| <= |text| && text[i..i + |part|] == part
  }

  predicate StandsIn(text: string, part: string) {
    exists i :: 0 <= i <= |text| && StandsAt(text, part, i)
  }

  lemma ContainsAt(text: string, part: string, i: nat)
    requires StandsAt(text, part, i)
    ensures Contains(text, part)
    decreases i
  {
    if i > 0 {
      assert text[1..][i - 1..i - 1 + |part|] == text[i..i + |part|];
      ContainsAt(text[1..], part, i - 1);
    } else {
      assert text[0..|part|] == text[..|part|];
    }
  }

  /** A text contains another exactly when the other stands at some position of it. */
  lemma {:induction false} ContainsIff(text: string, part: string)
    ensures Contains(text, part) <==> StandsIn(text, part)
  {
    if Contains(text, part) {
      if text[..|part|] == part {
        assert StandsAt(text, part, 0);
      } else {
        ContainsIff(text[1..], part);
        var i :| 0 <= i <= |text[1..]| && StandsAt(text[1..], part, i);
        assert text[1..][i..i + |part|] == text[i + 1..i + 1 + |part|];
        assert StandsAt(text, part, i + 1);
      }
    }
    if i :| 0 <= i <= |text| && StandsAt(text, part, i) {
      ContainsAt(text, part, i);
    }
  }

  /** Without the prefix in it a thread name stays as it is. */
  lemma {:induction false} BareKeeps(s: string)
    requires !Contains(s, "agent-bus:")
    ensures Bare(s) == s
  {
    if |s| >= 10 {
      BareKeeps(s[1..]);
      assert s == [s[0]] + s[1..];
    }
  }

  /** No prefix starts inside a text without one and ends in the prefix after it. */
  lemma NoOverlap(a: string, b: string)
    requires a != "" && !Contains(a, "agent-bus:")
    ensures (a + "agent-bus:" + b)[..10] != "agent-bus:"
  {
    var s := a + "agent-bus:" + b;
    if |a| >= 10 {
      assert s[..10] == a[..10];
    } else {
      assert s[..10][|a|] == s[|a|] == "agent-bus:"[0];
      OnlyFirstIsA(|a|);
    }
  }

  lemma OnlyFirstIsA(i: nat)
    requires 0 < i < 10
    ensures "agent-bus:"[i] != "agent-bus:"[0]
  {
  }

  /** The first prefix in a thread name goes, and the rest of the name is treated alike. */
  lemma {:induction false} BareDrops(a: string, b: string)
    requires !Contains(a, "agent-bus:")
    ensures Bare(a + "agent-bus:" + b) == a + Bare(b)
  {
    var s := a + "agent-bus:" + b;
    if a == "" {
      assert s[..10] == "agent-bus:" && s[10..] == b;
    } else {
      NoOverlap(a, b);
      assert s[1..] == a[1..] + "agent-bus:" + b;
      BareDrops(a[1..], b);
      assert a == [a[0]] + a[1..];
    }
  }

  /* ---------- fire rows ---------- */

  /** A generate that was admitted and whose reply is still to come, over the CDP substrate. */
  predicate LiveAdmit(p: Payload, awaitReply: bool) {
    && awaitReply && !p.terminal
    && p.executionId.Some? && p.executionId.value != "" && p.thread != ""
    && (p.replyFrom == "web-anthropic" || p.substrate == "web-anthropic-cdp")
  }

  lemma RecordIff(p: Payload, awaitReply: bool)
    ensures GenerateRecord(p, awaitReply) ==
      if LiveAdmit(p, awaitReply) then Some(Fire(p.executionId.value, Bare(p.thread), Some(p.afterTurn))) else None
  {
  }

  /** What a result paired with a generate request appends: its one fire row, or nothing. */
  lemma GenerateAppends(o: Observed, id: int, p: Payload)
    requires id in o.pending && o.pending[id].Generate?
    ensures Observe(o, Result(Some(id), Some(p))).ledger ==
      o.ledger + if LiveAdmit(p, o.pending[id].awaitReply) then [Fire(p.executionId.value, Bare(p.thread), Some(p.afterTurn))] else []
  {
    RecordIff(p, o.pending[id].awaitReply);
  }

  /** A result answers the request it names, once; without such a request, or without a payload, it appends nothing. */
  lemma ResultsArePaired(o: Observed, id: Option<int>, payload: Option<Payload>)
    ensures var t := Observe(o, Result(id, payload));
      && (id.Some? ==> t.pending == o.pending - {id.value})
      && (id.None? || id.value !in o.pending || payload.None? ==> t.ledger == o.ledger)
      && (id.None? ==> t == o)
  {
  }

  /** A generate or receive request is remembered under its id; any other request leaves the table as it is. */
  lemma RequestsAreKept(o: Observed, id: Option<int>, call: Call)
    ensures var t := Observe(o, Request(id, call));
      && t.ledger == o.ledger
      && t.pending == if id.Some? && (call.Generate? || call.Receive?) then o.pending[id.value := call] else o.pending
  {
  }

  /** The result that fires this row. */
  ghost predicate FiredBy(events: seq<Event>, k: nat, row: Row)
    requires k < |events|
  {
    var o, e := ObserveAll(START, events[..k]), events[k];
    && e.Result? && e.resId.Some? && e.payload.Some? && e.resId.value in o.pending
    && o.pending[e.resId.value].Generate? && LiveAdmit(e.payload.value, o.pending[e.resId.value].awaitReply)
    && row == Fire(e.payload.value.executionId.value, Bare(e.payload.value.thread), Some(e.payload.value.afterTurn))
  }

  lemma NewFire(o: Observed, e: Event, i: nat)
    requires i < |NewRows(o, e)| && NewRows(o, e)[i].Fire?
    ensures e.Result? && e.resId.Some? && e.payload.Some? && e.resId.value in o.pending && o.pending[e.resId.value].Generate?
    ensures var p, call := e.payload.value, o.pending[e.resId.value];
      LiveAdmit(p, call.awaitReply) && NewRows(o, e)[i] == Fire(p.executionId.value, Bare(p.thread), Some(p.afterTurn))
  {
    hide Hits, Bare;
    var call := o.pending[e.resId.value];
    if call.Generate? {
      RecordIff(e.payload.value, call.awaitReply);
    }
  }

  /** Every fire row of every run was written by one result of a generate request that was a live admit. */
  lemma {:induction false} FiresAreBacked(events: seq<Event>, i: nat)
    requires var rows := ObserveAll(START, events).ledger; i < |rows| && rows[i].Fire?
    ensures exists k :: 0 <= k < |events| && AppendedBy(events, k, i) && FiredBy(events, k, ObserveAll(START, events).ledger[i])
    decreases |events|
  {
    hide Observe, NewRows, LiveAdmit, Bare;
    var n := |events| - 1;
    assert events != [];
    var front := events[..n];
    var o := ObserveAll(START, front);
    ObserveAppends(o, events[n]);
    var row := ObserveAll(START, events).ledger[i];
    if i < |o.ledger| {
      FiresAreBacked(front, i);
      var k :| 0 <= k < |front| && AppendedBy(front, k, i) && FiredBy(front, k, o.ledger[i]);
      assert front[..k] == events[..k];
      assert AppendedBy(events, k, i) && FiredBy(events, k, row);
    } else {
      NewFire(o, events[n], i - |o.ledger|);
      assert AppendedBy(events, n, i) && FiredBy(events, n, row);
    }
  }

  /* ---------- received rows ---------- */

  /** A get or fetch marks exactly the outstanding ids that some turn from the CDP agent mentions. */
  lemma MentionsMark(p: Payload, call: Call, rows: seq<Row>, id: string)
    requires call.Receive? && !call.op.Wait?
    ensures id in Hits(p, call, rows) <==> Outstanding(rows, id) && MentionedBy(p.turns, id)
  {
    hide KnownIn, Contains, Mentions;
    MentionedIs(p.turns, Known(rows), id);
    InKnown(rows, id);
    MentionsIff(p.turns, id);
  }

  /** Subject and body of a turn, one under the other, with the id somewhere in them. */
  predicate MentionedBy(turns: seq<BusTurn>, id: string) {
    exists i :: 0 <= i < |turns| && turns[i].from == "web-anthropic" && StandsIn(turns[i].subject + "\n" + turns[i].body, id)
  }

  lemma MentionsIff(turns: seq<BusTurn>, id: string)
    ensures Mentions(turns, id) <==> MentionedBy(turns, id)
  {
    hide Contains, StandsIn;
    forall i | 0 <= i < |turns|
      ensures Contains(turns[i].subject + "\n" + turns[i].body, id) == StandsIn(turns[i].subject + "\n" + turns[i].body, id)
    {
      ContainsIff(turns[i].subject + "\n" + turns[i].body, id);
    }
  }

  /** What a paired receive result appends: a received row for each id it marks, signed with the operation. */
  lemma ReceiveAppends(o: Observed, id: int, p: Payload)
    requires id in o.pending && o.pending[id].Receive?
    ensures var hits := Hits(p, o.pending[id], o.ledger);
      var t := Observe(o, Result(Some(id), Some(p)));
      && |t.ledger| == |o.ledger| + |hits| && o.ledger <= t.ledger
      && forall i :: 0 <= i < |hits| ==> t.ledger[|o.ledger| + i] == Received(hits[i], o.pending[id].op)
  {
    hide Hits;
  }

  /* ---------- the order of received rows ---------- */

  /** `a` comes first in the dictionary: at the first difference it has the smaller character, or it ends. */
  predicate Precedes(a: string, b: string) {
    exists k :: 0 <= k <= |a| && DiffersAt(a, b, k)
  }

  predicate DiffersAt(a: string, b: string, k: nat) {
    k <= |a| && k < |b| && a[..k] == b[..k] && (k == |a| || a[k] < b[k])
  }

  lemma {:induction false} LessIff(a: string, b: string)
    ensures Less(a, b) <==> Precedes(a, b)
  {
    if Less(a, b) {
      if a == [] || a[0] < b[0] {
        assert DiffersAt(a, b, 0);
      } else {
        LessIff(a[1..], b[1..]);
        var k :| 0 <= k <= |a[1..]| && DiffersAt(a[1..], b[1..], k);
        assert a[..k + 1] == [a[0]] + a[1..][..k] && b[..k + 1] == [b[0]] + b[1..][..k];
        assert DiffersAt(a, b, k + 1);
      }
    }
    if k :| 0 <= k <= |a| && DiffersAt(a, b, k) {
      if k > 0 {
        assert a[..k][0] == a[0] && b[..k][0] == b[0];
        assert a[1..][..k - 1] == a[..k][1..] && b[1..][..k - 1] == b[..k][1..];
        assert DiffersAt(a[1..], b[1..], k - 1);
        LessIff(a[1..], b[1..]);
      }
    }
  }

  lemma {:induction false} LessTotal(a: string, b: string)
    ensures a == b || Less(a, b) || Less(b, a)
  {
    if a != [] && b != [] && a[0] == b[0] {
      LessTotal(a[1..], b[1..]);
      assert a == [a[0]] + a[1..] && b == [b[0]] + b[1..];
    }
  }

  lemma {:induction false} LessTrans(a: string, b: string, c: string)
    requires Less(a, b) && Less(b, c)
    ensures Less(a, c)
  {
    if a != [] && a[0] == b[0] && b[0] == c[0] {
      LessTrans(a[1..], b[1..], c[1..]);
    }
  }

  /** In dictionary order, without repetitions. */
  predicate InOrder(ids: seq<string>) {
    forall i, j :: 0 <= i < j < |ids| ==> Less(ids[i], ids[j])
  }

  lemma OrderCons(h: string, t: seq<string>)
    requires InOrder(t) && forall i :: 0 <= i < |t| ==> Less(h, t[i])
    ensures InOrder([h] + t)
  {
    hide Less;
  }

  lemma OrderTail(ids: seq<string>)
    requires ids != [] && InOrder(ids)
    ensures InOrder(ids[1..]) && forall i :: 0 <= i < |ids[1..]| ==> Less(ids[0], ids[1..][i])
  {
    hide Less;
  }

  lemma {:induction false} PlaceInOrder(id: string, ids: seq<string>)
    requires InOrder(ids) && id !in ids
    ensures InOrder(Place(id, ids))
  {
    hide Less, InOrder;
    if ids == [] {
      OneInOrder(id);
    } else {
      OrderTail(ids);
      assert ids == [ids[0]] + ids[1..];
      if Less(id, ids[0]) {
        forall i | 0 <= i < |ids| ensures Less(id, ids[i]) {
          if i > 0 {
            assert ids[i] == ids[1..][i - 1];
            LessTrans(id, ids[0], ids[i]);
          }
        }
        OrderCons(id, ids);
      } else {
        LessTotal(id, ids[0]);
        PlaceInOrder(id, ids[1..]);
        var rest := Place(id, ids[1..]);
        forall i | 0 <= i < |rest| ensures Less(ids[0], rest[i]) {
          assert rest[i] in multiset(rest);
          assert rest[i] == id || rest[i] in ids[1..];
        }
        OrderCons(ids[0], rest);
      }
    }
  }

  lemma OneInOrder(id: string)
    ensures InOrder([id] + []) && InOrder([])
  {
  }

  lemma {:induction false} KnownInOrder(rows: seq<Row>, all: seq<Row>)
    ensures InOrder(KnownIn(rows, all))
  {
    hide Less, InOrder, Place, WasReceived;
    OneInOrder("");
    if rows != [] {
      KnownInOrder(rows[..|rows| - 1], all);
      var last, known := rows[|rows| - 1], KnownIn(rows[..|rows| - 1], all);
      if last.id !in known {
        PlaceInOrder(last.id, known);
      }
    }
  }

  lemma {:induction false} MentionedInOrder(turns: seq<BusTurn>, known: seq<string>)
    requires InOrder(known)
    ensures InOrder(Mentioned(turns, known))
  {
    hide Less, InOrder, Mentions;
    OneInOrder("");
    if known != [] {
      OrderTail(known);
      MentionedInOrder(turns, known[1..]);
      var rest := Mentioned(turns, known[1..]);
      forall i | 0 <= i < |rest| ensures Less(known[0], rest[i]) {
        MentionedIs(turns, known[1..], rest[i]);
      }
      OrderCons(known[0], rest);
      assert [] + rest == rest;
    }
  }

  /** The rows one result appends for a get or fetch come in dictionary order of their ids. */
  lemma HitsInOrder(p: Payload, call: Call, rows: seq<Row>, i: nat, j: nat)
    requires call.Receive? && i < j < |Hits(p, call, rows)|
    ensures Precedes(Hits(p, call, rows)[i], Hits(p, call, rows)[j])
  {
    hide Less, FromWait, KnownIn, Mentioned;
    if call.op.Wait? {
      WaitCredits(p, call, rows, "");
    } else {
      KnownInOrder(rows, rows);
      MentionedInOrder(p.turns, Known(rows));
      LessIff(Hits(p, call, rows)[i], Hits(p, call, rows)[j]);
    }
  }
}
