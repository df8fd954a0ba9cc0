/** What holds of the ledger after every run of the observer. */
module LedgerRuns {
  import opened Text
  import opened Ledger

  function ObserveAll(o: Observed, events: seq<Event>): Observed
    decreases |events|
  {
    if events == [] then o else Observe(ObserveAll(o, events[..|events| - 1]), events[|events| - 1])
  }

  const START := Observed(map[], [])

  /** A received row follows a fire row of its id and is the only received row of its id. */
  predicate LedgerOk(rows: seq<Row>) {
    forall i :: 0 <= i < |rows| && rows[i].Received? ==>
      WasFired(rows[..i], rows[i].id) && !WasReceived(rows[..i], rows[i].id)
  }

  lemma OnceIsDistinct(ids: seq<string>)
    requires forall id :: multiset(ids)[id] <= 1
    ensures Distinct(ids)
  {
    forall i, j | 0 <= i < j < |ids| ensures ids[i] != ids[j] {
      assert ids == ids[..i] + [ids[i]] + ids[i + 1..j] + [ids[j]] + ids[j + 1..];
      assert multiset(ids)[ids[i]] <= 1;
    }
  }

  lemma KnownDistinct(rows: seq<Row>)
    ensures Distinct(Known(rows))
  {
    hide KnownIn;
    forall id ensures multiset(Known(rows))[id] <= 1 { KnownIs(rows, rows, id); }
    OnceIsDistinct(Known(rows));
  }

  lemma {:induction false} MentionedIs(turns: seq<BusTurn>, known: seq<string>, id: string)
    ensures id in Mentioned(turns, known) <==> id in known && Mentions(turns, id)
  {
    hide Mentions;
    if known != [] {
      MentionedIs(turns, known[1..], id);
    }
  }

  lemma {:induction false} MentionedDistinct(turns: seq<BusTurn>, known: seq<string>)
    requires Distinct(known)
    ensures Distinct(Mentioned(turns, known))
  {
    hide Mentions;
    if known != [] {
      MentionedDistinct(turns, known[1..]);
      MentionedIs(turns, known[1..], known[0]);
      assert known[0] !in known[1..];
    }
  }

  /** Why a result may mark `id` as received. */
  ghost predicate Evidence(p: Payload, call: Call, rows: seq<Row>, id: string) {
    && call.Receive?
    && Outstanding(rows, id)
    && if call.op.Wait? then
         && p.complete
         && LatestAfter(rows, id).Some? && p.qualifying.TurnNo? && p.qualifying.n > LatestAfter(rows, id).value
         && (|| call.executionId == Some(id)
             || (p.producer == Some(id) && (call.executionId.Some? ==> !Outstanding(rows, call.executionId.value)))
             || (&& call.executionId.None? && call.from == Some(REPLY_FROM)
                 && call.thread.Some? && call.thread.value != "" && call.thread == LatestThread(rows, id)
                 && forall other :: Outstanding(rows, other) ==> other == id))
       else Mentions(p.turns, id)
  }

  lemma InKnown(rows: seq<Row>, id: string)
    ensures id in Known(rows) <==> Outstanding(rows, id)
  {
    hide KnownIn;
    KnownIs(rows, rows, id);
  }

  lemma {:induction false} AllSame(xs: seq<string>, id: string)
    requires forall k :: 0 <= k < |xs| ==> xs[k] == id
    ensures multiset(xs)[id] == |xs|
  {
    if xs != [] {
      assert xs == [xs[0]] + xs[1..];
      AllSame(xs[1..], id);
    }
  }

  lemma KnownMeans(rows: seq<Row>)
    ensures Known(rows) == KnownIn(rows, rows)
  {
  }

  lemma LoneKnown(rows: seq<Row>, id: string)
    requires Outstanding(rows, id) && forall other :: Outstanding(rows, other) ==> other == id
    ensures Known(rows) == [id]
  {
    hide Known, Outstanding;
    InKnown(rows, id);
    var known := Known(rows);
    forall k | 0 <= k < |known| ensures known[k] == id { InKnown(rows, known[k]); }
    AllSame(known, id);
    KnownIs(rows, rows, id);
    assert known == KnownIn(rows, rows) by { KnownMeans(rows); }
  }

  /** A wait marks at most one id, and marks an id exactly when it has the evidence for it. */
  lemma WaitCredits(p: Payload, call: Call, rows: seq<Row>, id: string)
    requires call.Receive? && call.op.Wait?
    ensures |FromWait(p, call, rows)| <= 1
    ensures id in FromWait(p, call, rows) <==> Evidence(p, call, rows, id)
  {
    hide Known, Outstanding, LatestAfter, LatestThread;
    forall other ensures other in Known(rows) <==> Outstanding(rows, other) { InKnown(rows, other); }
    if Outstanding(rows, id) && forall other :: Outstanding(rows, other) ==> other == id {
      LoneKnown(rows, id);
    }
  }

  /** The ids a result marks are outstanding, pairwise distinct, and each backed by evidence. */
  lemma HitsAreBacked(p: Payload, call: Call, rows: seq<Row>)
    requires call.Receive?
    ensures var hits := Hits(p, call, rows);
      Distinct(hits) && forall i :: 0 <= i < |hits| ==> Evidence(p, call, rows, hits[i])
  {
    hide Known, FromWait, Mentioned, Mentions, Outstanding, LatestAfter, LatestThread;
    var hits := Hits(p, call, rows);
    if call.op.Wait? {
      WaitCredits(p, call, rows, "");
      forall i | 0 <= i < |hits| ensures Evidence(p, call, rows, hits[i]) { WaitCredits(p, call, rows, hits[i]); }
    } else {
      KnownDistinct(rows);
      MentionedDistinct(p.turns, Known(rows));
      forall i | 0 <= i < |hits| ensures Evidence(p, call, rows, hits[i]) {
        MentionedIs(p.turns, Known(rows), hits[i]);
        InKnown(rows, hits[i]);
      }
    }
  }

  lemma ReceivedConcat(a: seq<Row>, b: seq<Row>, id: string)
    ensures WasReceived(a + b, id) <==> WasReceived(a, id) || WasReceived(b, id)
  {
    if WasReceived(a, id) {
      var i :| 0 <= i < |a| && a[i].Received? && a[i].id == id;
      assert (a + b)[i] == a[i];
    }
    if WasReceived(b, id) {
      var i :| 0 <= i < |b| && b[i].Received? && b[i].id == id;
      assert (a + b)[|a| + i] == b[i];
    }
  }

  lemma FiredConcat(a: seq<Row>, b: seq<Row>, id: string)
    ensures WasFired(a + b, id) <==> WasFired(a, id) || WasFired(b, id)
  {
    if WasFired(a, id) {
      var i :| 0 <= i < |a| && a[i].Fire? && a[i].id == id;
      assert (a + b)[i] == a[i];
    }
    if WasFired(b, id) {
      var i :| 0 <= i < |b| && b[i].Fire? && b[i].id == id;
      assert (a + b)[|a| + i] == b[i];
    }
  }

  lemma MarksOk(rows: seq<Row>, ids: seq<string>, tool: ReceiveOp)
    requires LedgerOk(rows) && Distinct(ids) && forall i :: 0 <= i < |ids| ==> Outstanding(rows, ids[i])
    ensures LedgerOk(rows + Marks(ids, tool))
  {
    hide WasFired, WasReceived;
    var all := rows + Marks(ids, tool);
    forall i | 0 <= i < |all| && all[i].Received?
      ensures WasFired(all[..i], all[i].id) && !WasReceived(all[..i], all[i].id)
    {
      if i < |rows| {
        assert all[..i] == rows[..i];
      } else {
        var k := i - |rows|;
        assert Outstanding(rows, ids[k]);
        var marks := Marks(ids, tool)[..k];
        assert all[..i] == rows + marks;
        FiredConcat(rows, marks, ids[k]);
        ReceivedConcat(rows, marks, ids[k]);
        OthersMarked(ids, tool, k);
      }
    }
  }

  lemma OthersMarked(ids: seq<string>, tool: ReceiveOp, k: nat)
    requires Distinct(ids) && k < |ids|
    ensures !WasReceived(Marks(ids, tool)[..k], ids[k])
  {
  }

  lemma FireOk(rows: seq<Row>, row: Row)
    requires LedgerOk(rows) && row.Fire?
    ensures LedgerOk(rows + [row])
  {
    hide WasFired, WasReceived;
    var all := rows + [row];
    forall i | 0 <= i < |all| && all[i].Received?
      ensures WasFired(all[..i], all[i].id) && !WasReceived(all[..i], all[i].id)
    {
      assert all[..i] == rows[..i];
    }
  }

  lemma ObserveOk(o: Observed, e: Event)
    requires LedgerOk(o.ledger)
    ensures LedgerOk(Observe(o, e).ledger)
  {
    hide LedgerOk, Hits, GenerateRecord, Outstanding, Distinct, Mentions, LatestAfter, LatestThread;
    if e.Result? && e.resId.Some? {
      assert o.ledger + [] == o.ledger;
      if e.resId.value in o.pending && e.payload.Some? {
        var call := o.pending[e.resId.value];
        if call.Receive? {
          HitsAreBacked(e.payload.value, call, o.ledger);
          MarksOk(o.ledger, Hits(e.payload.value, call, o.ledger), call.op);
        } else if call.Generate? {
          RecordIsFire(e.payload.value, call.awaitReply);
          var record := GenerateRecord(e.payload.value, call.awaitReply);
          if record.Some? { FireOk(o.ledger, record.value); }
        }
      }
    }
  }

  lemma RecordIsFire(p: Payload, awaitReply: bool)
    ensures GenerateRecord(p, awaitReply).Some? ==> GenerateRecord(p, awaitReply).value.Fire?
  {
  }

  /** In every run, each received row follows a fire row of its id and occurs at most once per id. */
  lemma {:induction false} RunOk(o: Observed, events: seq<Event>)
    requires LedgerOk(o.ledger)
    ensures LedgerOk(ObserveAll(o, events).ledger)
    decreases |events|
  {
    hide LedgerOk, Observe;
    if events != [] {
      RunOk(o, events[..|events| - 1]);
      ObserveOk(ObserveAll(o, events[..|events| - 1]), events[|events| - 1]);
    }
  }

  /** Spelled out by positions. */
  lemma ReceivedOnceAfterFire(events: seq<Event>, i: nat)
    requires var rows := ObserveAll(START, events).ledger; i < |rows| && rows[i].Received?
    ensures var rows := ObserveAll(START, events).ledger;
      && (exists j :: 0 <= j < i && rows[j].Fire? && rows[j].id == rows[i].id)
      && (forall j :: 0 <= j < |rows| && j != i && rows[j].Received? ==> rows[j].id != rows[i].id)
  {
    hide ObserveAll;
    RunOk(START, events);
    var rows := ObserveAll(START, events).ledger;
    var j :| 0 <= j < |rows[..i]| && rows[..i][j].Fire? && rows[..i][j].id == rows[i].id;
    assert rows[j].Fire? && rows[j].id == rows[i].id;
    forall j | 0 <= j < |rows| && j != i && rows[j].Received? ensures rows[j].id != rows[i].id {
      if j < i {
        assert rows[..i][j] == rows[j];
      } else {
        assert !WasReceived(rows[..j], rows[j].id);
        assert rows[..j][i] == rows[i];
      }
    }
  }

  /** The ledger only grows. */
  lemma {:induction false} LedgerGrows(o: Observed, events: seq<Event>)
    ensures o.ledger <= ObserveAll(o, events).ledger
    decreases |events|
  {
    hide NewRows;
    if events != [] {
      LedgerGrows(o, events[..|events| - 1]);
    }
  }

  /** An id once received is never outstanding again, even if it is fired again. */
  lemma ReceivedForGood(o: Observed, events: seq<Event>, id: string)
    requires WasReceived(o.ledger, id)
    ensures !Outstanding(ObserveAll(o, events).ledger, id)
  {
    LedgerGrows(o, events);
    var rows := ObserveAll(o, events).ledger;
    var i :| 0 <= i < |o.ledger| && o.ledger[i].Received? && o.ledger[i].id == id;
    assert rows[i] == o.ledger[i];
  }

  /** An id stays outstanding until some result is credited to it. */
  lemma OwedUntilCredited(o: Observed, events: seq<Event>, id: string)
    requires Outstanding(o.ledger, id)
    ensures var rows := ObserveAll(o, events).ledger;
      Outstanding(rows, id) <==> forall i :: |o.ledger| <= i < |rows| ==> !(rows[i].Received? && rows[i].id == id)
  {
    hide WasFired, ObserveAll;
    LedgerGrows(o, events);
    var rows := ObserveAll(o, events).ledger;
    var tail := rows[|o.ledger|..];
    assert rows == o.ledger + tail;
    FiredConcat(o.ledger, tail, id);
    forall i | 0 <= i < |o.ledger| ensures !(rows[i].Received? && rows[i].id == id) {
      assert rows[i] == o.ledger[i];
    }
  }

  /** The event of the run that appended row `i`, and the state it met. */
  predicate AppendedBy(events: seq<Event>, k: nat, i: nat)
    requires k < |events|
  {
    var o := ObserveAll(START, events[..k]);
    |o.ledger| <= i < |Observe(o, events[k]).ledger|
  }

  ghost predicate CreditedBy(events: seq<Event>, k: nat, row: Row)
    requires k < |events|
  {
    var o, e := ObserveAll(START, events[..k]), events[k];
    && e.Result? && e.resId.Some? && e.payload.Some? && e.resId.value in o.pending
    && row.Received? && o.pending[e.resId.value].Receive? && o.pending[e.resId.value].op == row.tool
    && Evidence(e.payload.value, o.pending[e.resId.value], o.ledger, row.id)
  }

  lemma NewRowBacked(o: Observed, e: Event, i: nat)
    requires i < |NewRows(o, e)| && NewRows(o, e)[i].Received?
    ensures e.Result? && e.resId.Some? && e.payload.Some? && e.resId.value in o.pending
    ensures var call := o.pending[e.resId.value];
      call.Receive? && call.op == NewRows(o, e)[i].tool && Evidence(e.payload.value, call, o.ledger, NewRows(o, e)[i].id)
  {
    hide Hits, GenerateRecord, Evidence, Distinct;
    var call := o.pending[e.resId.value];
    if call.Receive? {
      HitsAreBacked(e.payload.value, call, o.ledger);
    } else if call.Generate? {
      RecordIsFire(e.payload.value, call.awaitReply);
    }
  }

  /**
   * Every received row in the ledger of every run was written by one result paired with a receive request, and the
   * state that result met held the evidence: for a wait, one named id or the lone outstanding one, and a turn
   * strictly after that id's latest recorded after-turn.
   */
  lemma {:induction false} CreditsAreBacked(events: seq<Event>, i: nat)
    requires var rows := ObserveAll(START, events).ledger; i < |rows| && rows[i].Received?
    ensures exists k :: 0 <= k < |events| && AppendedBy(events, k, i) && CreditedBy(events, k, ObserveAll(START, events).ledger[i])
    decreases |events|
  {
    hide Observe, Evidence, NewRows;
    var n := |events| - 1;
    assert events != [];
    var front := events[..n];
    var o := ObserveAll(START, front);
    ObserveAppends(o, events[n]);
    var row := ObserveAll(START, events).ledger[i];
    if i < |o.ledger| {
      CreditsAreBacked(front, i);
      var k :| 0 <= k < |front| && AppendedBy(front, k, i) && CreditedBy(front, k, o.ledger[i]);
      assert front[..k] == events[..k];
      assert AppendedBy(events, k, i) && CreditedBy(events, k, row);
    } else {
      NewRowBacked(o, events[n], i - |o.ledger|);
      assert AppendedBy(events, n, i) && CreditedBy(events, n, row);
    }
  }

  lemma ObserveAppends(o: Observed, e: Event)
    ensures Observe(o, e).ledger == o.ledger + NewRows(o, e)
  {
    assert o.ledger + [] == o.ledger;
  }
}
