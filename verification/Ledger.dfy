/** The bridge's ledger of fired generates and received replies, and the observer that writes it. */
module Ledger {
  import opened Text

  const REPLY_FROM := "web-anthropic"
  const SUBSTRATE := "web-anthropic-cdp"
  const BUS := "agent-bus:"

  /** One line of the ledger; `after` is `None` when the stored value is missing or not a number. */
  datatype Row =
    | Fire(id: string, thread: string, after: Option<int>)
    | Received(id: string, tool: ReceiveOp)

  datatype ReceiveOp = Wait | Get | Fetch

  datatype Call =
    | Generate(awaitReply: bool)
    | Receive(op: ReceiveOp, executionId: Option<string>, thread: Option<string>, from: Option<string>)
    | OtherCall

  /** A qualifying turn: absent, not a number, or a number. */
  datatype Turn = NoTurn | BadTurn | TurnNo(n: int)

  datatype BusTurn = BusTurn(from: string, subject: string, body: string)

  /** The fields a tool result may carry. */
  datatype Payload = Payload(
    executionId: Option<string>, terminal: bool, replyFrom: string, substrate: string, thread: string, afterTurn: int,
    complete: bool, qualifying: Turn, producer: Option<string>, turns: seq<BusTurn>)

  datatype Observed = Observed(pending: map<int, Call>, ledger: seq<Row>)

  datatype Event =
    | Request(reqId: Option<int>, call: Call)
    | Result(resId: Option<int>, payload: Option<Payload>)

  /* ---------- reading the ledger ---------- */

  /** Removes every occurrence of the bus prefix. */
  function Bare(s: string): string {
    if |s| < |BUS| then s else if s[..|BUS|] == BUS then Bare(s[|BUS|..]) else [s[0]] + Bare(s[1..])
  }

  predicate WasReceived(rows: seq<Row>, id: string) {
    exists i :: 0 <= i < |rows| && rows[i].Received? && rows[i].id == id
  }

  predicate WasFired(rows: seq<Row>, id: string) {
    exists i :: 0 <= i < |rows| && rows[i].Fire? && rows[i].id == id
  }

  predicate Outstanding(rows: seq<Row>, id: string) {
    id != "" && WasFired(rows, id) && !WasReceived(rows, id)
  }

  /** The latest fire row's after-turn. */
  function LatestAfter(rows: seq<Row>, id: string): Option<int> {
    if rows == [] then None
    else
      var last := rows[|rows| - 1];
      if last.Fire? && last.id == id then last.after else LatestAfter(rows[..|rows| - 1], id)
  }

  /** The thread of the latest fire row that names one. */
  function LatestThread(rows: seq<Row>, id: string): Option<string> {
    if rows == [] then None
    else
      var last := rows[|rows| - 1];
      if last.Fire? && last.id == id && last.thread != "" then Some(Bare(last.thread))
      else LatestThread(rows[..|rows| - 1], id)
  }

  predicate Less(a: string, b: string) {
    b != [] && (a == [] || a[0] < b[0] || (a[0] == b[0] && Less(a[1..], b[1..])))
  }

  function Place(id: string, ids: seq<string>): (r: seq<string>)
    ensures multiset(r) == multiset(ids) + multiset{id} && |r| == |ids| + 1
  {
    if ids == [] || Less(id, ids[0]) then [id] + ids
    else
      assert ids == [ids[0]] + ids[1..];
      [ids[0]] + Place(id, ids[1..])
  }

  /** The distinct outstanding ids of `rows`, where `all` tells what was received. */
  function KnownIn(rows: seq<Row>, all: seq<Row>): seq<string> {
    if rows == [] then []
    else
      var last, known := rows[|rows| - 1], KnownIn(rows[..|rows| - 1], all);
      if last.Fire? && last.id != "" && !WasReceived(all, last.id) && last.id !in known then Place(last.id, known) else known
  }

  function Known(rows: seq<Row>): seq<string> {
    KnownIn(rows, rows)
  }

  /* ---------- deciding ---------- */

  /** The row of an admitted generate whose reply is awaited. */
  function GenerateRecord(p: Payload, awaitReply: bool): Option<Row> {
    if !awaitReply || p.executionId.None? || p.executionId.value == "" || p.terminal then None
    else if p.replyFrom != REPLY_FROM && p.substrate != SUBSTRATE then None
    else if p.thread == "" then None
    else Some(Fire(p.executionId.value, Bare(p.thread), Some(p.afterTurn)))
  }

  predicate FreshTurn(t: Turn, after: Option<int>) {
    t.TurnNo? && after.Some? && t.n > after.value
  }

  function CreditIfFresh(p: Payload, rows: seq<Row>, id: string): seq<string> {
    if FreshTurn(p.qualifying, LatestAfter(rows, id)) then [id] else []
  }

  function FromWait(p: Payload, call: Call, rows: seq<Row>): seq<string>
    requires call.Receive?
  {
    var known := Known(rows);
    if !p.complete || p.qualifying.NoTurn? then []
    else if call.executionId.Some? && call.executionId.value in known then CreditIfFresh(p, rows, call.executionId.value)
    else if p.producer.Some? && p.producer.value in known then CreditIfFresh(p, rows, p.producer.value)
    else if call.executionId.Some? || |known| != 1 || call.from != Some(REPLY_FROM) then []
    else if call.thread.None? || call.thread.value == "" || call.thread != LatestThread(rows, known[0]) then []
    else CreditIfFresh(p, rows, known[0])
  }

  predicate Contains(text: string, part: string) {
    |part| <= |text| && (text[..|part|] == part || (text != "" && Contains(text[1..], part)))
  }

  predicate Mentions(turns: seq<BusTurn>, id: string) {
    exists i :: 0 <= i < |turns| && turns[i].from == REPLY_FROM && Contains(turns[i].subject + "\n" + turns[i].body, id)
  }

  function Mentioned(turns: seq<BusTurn>, known: seq<string>): seq<string> {
    if known == [] then []
    else (if Mentions(turns, known[0]) then [known[0]] else []) + Mentioned(turns, known[1..])
  }

  function Hits(p: Payload, call: Call, rows: seq<Row>): seq<string>
    requires call.Receive?
  {
    if call.op.Wait? then FromWait(p, call, rows) else Mentioned(p.turns, Known(rows))
  }

  function Marks(ids: seq<string>, tool: ReceiveOp): (r: seq<Row>)
    ensures |r| == |ids| && forall i :: 0 <= i < |ids| ==> r[i] == Received(ids[i], tool)
  {
    seq(|ids|, i requires 0 <= i < |ids| => Received(ids[i], tool))
  }

  /* ---------- observing ---------- */

  /** The rows an event appends. */
  function NewRows(o: Observed, e: Event): seq<Row> {
    if e.Request? || e.resId.None? || e.resId.value !in o.pending || e.payload.None? then []
    else
      match o.pending[e.resId.value]
      case Generate(awaitReply) =>
        (match GenerateRecord(e.payload.value, awaitReply) case None => [] case Some(row) => [row])
      case Receive(op, _, _, _) => Marks(Hits(e.payload.value, o.pending[e.resId.value], o.ledger), op)
      case OtherCall => []
  }

  function Observe(o: Observed, e: Event): Observed {
    match e
    case Request(id, call) =>
      if id.Some? && !call.OtherCall? then o.(pending := o.pending[id.value := call]) else o
    case Result(id, payload) =>
      if id.None? then o
      else Observed(o.pending - {id.value}, o.ledger + NewRows(o, e))
  }

  /** Watches requests and results; the relay never fails because of it. */
  class GenerateObserver {
    var pending: map<int, Call>
    var ledger: seq<Row>

    function Value(): Observed
      reads this
    {
      Observed(pending, ledger)
    }

    method OnRequest(id: Option<int>, call: Call)
      modifies this
      ensures Value() == Observe(old(Value()), Request(id, call))
    {
      if id.None? {
        return;
      }
      match call {
        case Generate(_) => pending := pending[id.value := call];
        case Receive(_, _, _, _) => pending := pending[id.value := call];
        case OtherCall =>
      }
    }

    /** Ids still owed, with the thread and the after-turn of each. */
    method KnownGenerates() returns (known: seq<string>, threads: map<string, string>, afters: map<string, Option<int>>)
      ensures known == Known(ledger)
      ensures forall id :: id in known ==>
        && LatestThread(ledger, id) == (if id in threads then Some(threads[id]) else None)
        && LatestAfter(ledger, id) == (if id in afters then afters[id] else None)
    {
      hide WasReceived, Place, Bare;
      known, threads, afters := [], map[], map[];
      for i := 0 to |ledger|
        invariant known == KnownIn(ledger[..i], ledger)
        invariant forall id :: !WasReceived(ledger, id) && id != "" ==>
          && LatestThread(ledger[..i], id) == (if id in threads then Some(threads[id]) else None)
          && LatestAfter(ledger[..i], id) == (if id in afters then afters[id] else None)
      {
        var row := ledger[i];
        assert ledger[..i + 1][..i] == ledger[..i];
        if row.Received? || row.id == "" || WasReceived(ledger, row.id) {
          continue;
        }
        if row.id !in known {
          known := Place(row.id, known);
        }
        if row.thread != "" {
          threads := threads[row.id := Bare(row.thread)];
        }
        afters := afters[row.id := row.after];
      }
      assert ledger[..|ledger|] == ledger;
      forall id | id in known ensures !WasReceived(ledger, id) && id != "" {
        KnownIs(ledger, ledger, id);
      }
    }

    method OnResult(id: Option<int>, payload: Option<Payload>)
      modifies this
      ensures Value() == Observe(old(Value()), Result(id, payload))
    {
      hide KnownIn, GenerateRecord, Mentions, LatestAfter, LatestThread;
      if id.None? {
        return;
      }
      if id.value !in pending {
        assert pending - {id.value} == pending;
        return;
      }
      var call := pending[id.value];
      pending := pending - {id.value};
      if payload.None? {
        return;
      }
      if call.Generate? {
        var record := GenerateRecord(payload.value, call.awaitReply);
        if record.Some? {
          ledger := ledger + [record.value];
        }
      } else if call.Receive? {
        ObserveReceive(payload.value, call);
      }
    }

    method ObserveReceive(p: Payload, call: Call)
      requires call.Receive?
      modifies this`ledger
      ensures ledger == old(ledger) + Marks(Hits(p, call, old(ledger)), call.op)
    {
      hide Known, FromWait, Mentions, LatestAfter, LatestThread;
      var known, threads, afters := KnownGenerates();
      var hits: seq<string> := [];
      if call.op.Wait? {
        hits := ReceivedFromWait(p, call, known, threads, afters);
      } else {
        for i := 0 to |known|
          invariant ledger == old(ledger) && hits + Mentioned(p.turns, known[i..]) == Mentioned(p.turns, known)
        {
          assert known[i..][0] == known[i] && known[i..][1..] == known[i + 1..];
          if Mentions(p.turns, known[i]) {
            hits := hits + [known[i]];
          }
        }
        assert known[|known|..] == [];
      }
      for i := 0 to |hits|
        invariant ledger == old(ledger) + Marks(hits, call.op)[..i]
      {
        ledger := ledger + [Received(hits[i], call.op)];
      }
      assert Marks(hits, call.op)[..|hits|] == Marks(hits, call.op);
    }

    method ReceivedFromWait(p: Payload, call: Call, known: seq<string>, threads: map<string, string>, afters: map<string, Option<int>>)
      returns (hits: seq<string>)
      requires call.Receive? && known == Known(ledger)
      requires forall id :: id in known ==>
        && LatestThread(ledger, id) == (if id in threads then Some(threads[id]) else None)
        && LatestAfter(ledger, id) == (if id in afters then afters[id] else None)
      ensures hits == FromWait(p, call, ledger)
    {
      hide Known, LatestAfter, LatestThread;
      if !p.complete || p.qualifying.NoTurn? {
        return [];
      }
      var candidates := [call.executionId, p.producer];
      for i := 0 to 2
        invariant forall k :: 0 <= k < i ==> candidates[k].None? || candidates[k].value !in known
      {
        if candidates[i].Some? && candidates[i].value in known {
          var id := candidates[i].value;
          assert i == 0 || (i == 1 && candidates[0] == call.executionId);
          assert FromWait(p, call, ledger) == CreditIfFresh(p, ledger, id);
          return if FreshTurn(p.qualifying, if id in afters then afters[id] else None) then [id] else [];
        }
      }
      assert candidates[0] == call.executionId && candidates[1] == p.producer;
      if call.executionId.Some? || |known| != 1 || call.from != Some(REPLY_FROM) {
        return [];
      }
      var only := known[0];
      if call.thread.None? || call.thread.value == "" || only !in threads || call.thread.value != threads[only] {
        return [];
      }
      return if FreshTurn(p.qualifying, if only in afters then afters[only] else None) then [only] else [];
    }
  }

  /** The known ids are exactly the outstanding ones, each once. */
  lemma {:induction false} KnownIs(rows: seq<Row>, all: seq<Row>, id: string)
    ensures id in KnownIn(rows, all) <==> id != "" && WasFired(rows, id) && !WasReceived(all, id)
    ensures multiset(KnownIn(rows, all))[id] <= 1
  {
    hide Place, WasReceived;
    if rows != [] {
      var front, last := rows[..|rows| - 1], rows[|rows| - 1];
      KnownIs(front, all, id);
      assert rows == front + [last];
      FiredSnoc(front, last, id);
      hide WasFired;
      var known := KnownIn(front, all);
      if last.Fire? && last.id != "" && !WasReceived(all, last.id) && last.id !in known {
        assert id in Place(last.id, known) <==> id in multiset(Place(last.id, known));
        assert id in known <==> id in multiset(known);
        assert last.id !in multiset(known);
      }
      assert last.Fire? && last.id in known ==> (last.id == id ==> id in known);
    }
  }

  lemma FiredSnoc(front: seq<Row>, last: Row, id: string)
    ensures WasFired(front + [last], id) <==> WasFired(front, id) || (last.Fire? && last.id == id)
  {
    if WasFired(front, id) {
      var i :| 0 <= i < |front| && front[i].Fire? && front[i].id == id;
      assert (front + [last])[i] == front[i];
    }
    if last.Fire? && last.id == id {
      assert (front + [last])[|front|] == last;
    }
  }
}
