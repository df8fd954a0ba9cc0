/** Every spool row the bridge marks delivered travels in one relayed frame, which answers a tools/call. */
module RelayEnvelopes {
  import opened Text
  import opened Spool
  import opened SpoolRuns
  import opened Relay

  /* ---------- server frames are relayed once, in order ---------- */

  function RelayedIn(outs: seq<Out>): seq<Out> {
    if outs == [] then []
    else
      var n := |outs| - 1;
      RelayedIn(outs[..n]) + if outs[n].Relayed? then [outs[n]] else []
  }

  lemma RelayedSnoc(outs: seq<Out>, o: Out)
    ensures RelayedIn(outs + [o]) == RelayedIn(outs) + if o.Relayed? then [o] else []
  {
    assert (outs + [o])[..|outs|] == outs;
  }

  /* ---------- rows marked by the bridge ---------- */

  predicate ByBridge(r: Row) {
    r.outcome.DeliveredAt? && r.outcome.via == BRIDGE
  }

  function BridgeIds(rows: seq<Row>): seq<string> {
    if rows == [] then []
    else
      var n := |rows| - 1;
      BridgeIds(rows[..n]) + if ByBridge(rows[n]) then [rows[n].entryId] else []
  }

  lemma BridgeSnoc(rows: seq<Row>, r: Row)
    ensures BridgeIds(rows + [r]) == BridgeIds(rows) + if ByBridge(r) then [r.entryId] else []
  {
    assert (rows + [r])[..|rows|] == rows;
  }

  function TakenIn(outs: seq<Out>): seq<string> {
    if outs == [] then []
    else
      var n := |outs| - 1;
      TakenIn(outs[..n]) + if outs[n].Relayed? && outs[n].taken.Some? then [outs[n].taken.value] else []
  }

  lemma TakenSnoc(outs: seq<Out>, o: Out)
    ensures TakenIn(outs + [o]) == TakenIn(outs) + if o.Relayed? && o.taken.Some? then [o.taken.value] else []
  {
    assert (outs + [o])[..|outs|] == outs;
  }

  function InFlight(up: Up): seq<string> {
    if up.Writing? && up.taken.Some? then [up.taken.value] else []
  }

  /** Other processes sign their deliveries with another name. */
  predicate NotBridge(op: Op) {
    (op.OpMark? || op.OpConsume?) ==> op.via != BRIDGE
  }

  predicate StepFair(step: Step) {
    step.Others? ==> NotBridge(step.op)
  }

  lemma MarkBridge(s: Spool, id: string, entryId: string, at: int, via: string)
    ensures var t := Mark(s, id, entryId, at, via);
      t.delivered == s.delivered + if FirstId(s.pending, entryId) < |s.pending|
        then [s.pending[FirstId(s.pending, entryId)].(claimed := true, outcome := DeliveredAt(at, via))] else []
  {
  }

  /** A consuming call delivers the row it returns, and no other. */
  lemma ConsumeDelivers(s: Spool, id: string, live: Live, now: int, at: int, via: string)
    ensures var (t, row) := Consume(s, id, live, now, at, via);
      if row.None? then t == s
      else exists r: Row :: t.delivered == s.delivered + [r] && r.entryId == row.value.entryId && r.outcome == DeliveredAt(at, via)
  {
    hide Claim, Mark;
    var (c, row) := Claim(s, now, live.Alive?);
    ClaimKeeps(s, now, live.Alive?);
    if row.Some? {
      MarkBridge(c, id, row.value.entryId, at, via);
    }
  }

  lemma OthersLeaveBridge(s: Spool, id: string, op: Op)
    requires NotBridge(op)
    ensures BridgeIds(Apply(s, id, op).delivered) == BridgeIds(s.delivered)
  {
    hide BridgeIds, Claim, Mark, Consume, Append, Expire, Inherit;
    match op {
      case OpAppend(row) => StepDeposits(s, id, op);
      case OpInherit(_, _, _, _, _) => StepDeposits(s, id, op);
      case OpClaim(now, allow) => ClaimKeeps(s, now, allow);
      case OpExpire(at, reason) => ExpireMoves(s, id, at, reason);
      case OpMark(entryId, at, via) =>
        MarkBridge(s, id, entryId, at, via);
        assert s.delivered + [] == s.delivered;
        var i := FirstId(s.pending, entryId);
        if i < |s.pending| {
          BridgeSnoc(s.delivered, s.pending[i].(claimed := true, outcome := DeliveredAt(at, via)));
        }
      case OpConsume(live, now, at, via) =>
        ConsumeDelivers(s, id, live, now, at, via);
        var (t, row) := Consume(s, id, live, now, at, via);
        if row.Some? {
          var r: Row :| t.delivered == s.delivered + [r] && r.entryId == row.value.entryId && r.outcome == DeliveredAt(at, via);
          BridgeSnoc(s.delivered, r);
        }
    }
  }

  /** Delivered by the bridge since `base`: exactly the rows taken for relayed frames, in order. */
  predicate RowsOk(b: Bridge, base: seq<string>) {
    BridgeIds(b.spool.delivered) == base + TakenIn(b.toClient) + InFlight(b.up)
  }

  lemma ConsumeRows(b: Bridge, step: Step, cfg: Config, base: seq<string>)
    requires RowsOk(b, base) && step.UpConsume?
    ensures RowsOk(Next(b, step, cfg), base)
  {
    hide BridgeIds, TakenIn, Consume;
    if b.up.Consuming? {
      ConsumeDelivers(b.spool, Strip(cfg.dispatchId), step.live, step.now, step.at, BRIDGE);
      var (t, row) := Consume(b.spool, Strip(cfg.dispatchId), step.live, step.now, step.at, BRIDGE);
      if row.Some? {
        var r: Row :| t.delivered == b.spool.delivered + [r] && r.entryId == row.value.entryId && r.outcome == DeliveredAt(step.at, BRIDGE);
        BridgeSnoc(b.spool.delivered, r);
      }
    }
  }

  lemma WriteRows(b: Bridge, step: Step, cfg: Config, base: seq<string>)
    requires RowsOk(b, base) && (step.UpWrite? || step.DownRefuse?)
    ensures RowsOk(Next(b, step, cfg), base)
  {
    hide BridgeIds, TakenIn, TakesEnvelope;
    if step.UpWrite? && b.up.Writing? {
      TakenSnoc(b.toClient, Written(b.up.frame, b.up.taken));
      assert base + TakenIn(b.toClient) + InFlight(b.up) == base + (TakenIn(b.toClient) + InFlight(b.up)) + [];
    } else if step.DownRefuse? && b.down.Refusing? {
      TakenSnoc(b.toClient, Refused(b.down.frame.id));
    }
  }

  lemma StepRows(b: Bridge, step: Step, cfg: Config, base: seq<string>)
    requires RowsOk(b, base) && StepFair(step)
    ensures RowsOk(Next(b, step, cfg), base)
  {
    hide BridgeIds, TakenIn, Consume, Apply, NotBridge, Stamp, FilterTools, IsToolsCallResult;
    if step.UpConsume? {
      ConsumeRows(b, step, cfg, base);
    } else if step.UpWrite? || step.DownRefuse? {
      WriteRows(b, step, cfg, base);
    } else if step.Others? {
      OthersLeaveBridge(b.spool, Strip(cfg.dispatchId), step.op);
    }
  }

  predicate AllFair(steps: seq<Step>) {
    forall i :: 0 <= i < |steps| ==> StepFair(steps[i])
  }

  lemma {:induction false} RunRows(b: Bridge, steps: seq<Step>, cfg: Config, base: seq<string>)
    requires RowsOk(b, base) && AllFair(steps)
    ensures RowsOk(Run(b, steps, cfg), base)
    decreases |steps|
  {
    hide RowsOk, Next, StepFair;
    if steps != [] {
      RunRows(b, steps[..|steps| - 1], cfg, base);
      StepRows(Run(b, steps[..|steps| - 1], cfg), steps[|steps| - 1], cfg, base);
    }
  }

  /* ---------- the frames that carry envelopes ---------- */

  /** What the bridge may have done to a server frame. */
  predicate RelayOf(o: Out, f: ServerFrame, cfg: Config) {
    o.Relayed? && o == Written(FilterTools(f, cfg), o.taken)
  }

  /** Some client frame taken so far asked for a tools/call under this id. */
  predicate Asked(b: Bridge, id: int) {
    exists i :: 0 <= i < b.next <= |b.inbox| && b.inbox[i].id == Some(id) && b.inbox[i].methodName == Some(CALL)
  }

  /** A frame about to take a row, or with one: it has a result and answers a tools/call. */
  predicate Answers(b: Bridge, f: ServerFrame) {
    f.id.Some? && !f.hasMethod && !f.error && f.result.Result? && !f.result.isError && Asked(b, f.id.value)
  }

  predicate UpFits(b: Bridge, cfg: Config) {
    match b.up
    case UpIdle => true
    case Judging(f) => b.received != [] && f == FilterTools(b.received[|b.received| - 1], cfg)
    case Consuming(f) => b.received != [] && f == FilterTools(b.received[|b.received| - 1], cfg) && Answers(b, f)
    case Writing(f, taken) =>
      b.received != [] && f == FilterTools(b.received[|b.received| - 1], cfg) && (taken.Some? ==> Answers(b, f))
  }

  /** Server frames fully dealt with. */
  function Sent(b: Bridge): nat {
    if b.up.UpIdle? || b.received == [] then |b.received| else |b.received| - 1
  }

  predicate OutsFit(b: Bridge, outs: seq<Out>, cfg: Config) {
    && |outs| == Sent(b)
    && forall i :: 0 <= i < |outs| ==> RelayOf(outs[i], b.received[i], cfg) && (outs[i].taken.Some? ==> Answers(b, outs[i].frame))
  }

  predicate MethodsFit(b: Bridge) {
    && b.next <= |b.inbox|
    && (forall id :: id in b.methods && b.methods[id] == CALL ==> Asked(b, id))
    && (b.down.Registering? ==> b.next > 0 && b.down.frame == b.inbox[b.next - 1])
  }

  predicate UpOk(b: Bridge, cfg: Config) {
    UpFits(b, cfg) && OutsFit(b, RelayedIn(b.toClient), cfg) && MethodsFit(b)
  }

  /** What the client has asked stays asked. */
  lemma AskedStays(b: Bridge, c: Bridge)
    requires c.inbox == b.inbox && b.next <= c.next <= |c.inbox|
    ensures forall id :: Asked(b, id) ==> Asked(c, id)
  {
  }

  lemma WrittenFrame(f: ServerFrame, taken: Option<string>)
    ensures var o := Written(f, taken);
      && o.Relayed? && o.taken == taken && o.frame.id == f.id && o.frame.hasMethod == f.hasMethod && o.frame.error == f.error
      && (f.result.Result? ==> o.frame.result.Result? && o.frame.result.isError == f.result.isError)
      && (o.steer.Some? <==> taken.Some? && TakesEnvelope(f)) && (o.steer.Some? ==> o.steer == taken)
  {
  }

  lemma DownUpOk(b: Bridge, step: Step, cfg: Config)
    requires UpOk(b, cfg) && (step.DownRead? || step.DownRefuse? || step.DownRegister? || step.DownForward?)
    ensures UpOk(Next(b, step, cfg), cfg)
  {
    hide FilterTools, RelayedIn, Asked, RelayOf;
    var c := Next(b, step, cfg);
    AskedStays(b, c);
    if step.DownRefuse? && b.down.Refusing? {
      RelayedSnoc(b.toClient, Refused(b.down.frame.id));
    }
    if step.DownRegister? && b.down.Registering? {
      RegisterAsks(b);
      StampKeeps(b.down.frame, cfg);
    }
  }

  lemma StampKeeps(f: ClientFrame, cfg: Config)
    ensures Stamp(f, cfg).id == f.id && Stamp(f, cfg).methodName == f.methodName
  {
  }

  lemma RegisterAsks(b: Bridge)
    requires MethodsFit(b) && b.down.Registering?
    ensures b.down.frame.id.Some? && b.down.frame.methodName == Some(CALL) ==> Asked(b, b.down.frame.id.value)
  {
    assert b.inbox[b.next - 1] == b.down.frame;
  }

  lemma UpStepOk(b: Bridge, step: Step, cfg: Config)
    requires UpOk(b, cfg) && (step.UpRead? || step.UpJudge? || step.UpConsume? || step.Others?)
    ensures UpOk(Next(b, step, cfg), cfg)
  {
    hide FilterTools, RelayedIn, RelayOf, Consume, Apply, Asked;
    var c := Next(b, step, cfg);
    AskedStays(b, c);
  }

  lemma WriteOk(b: Bridge, cfg: Config)
    requires UpOk(b, cfg)
    ensures UpOk(Next(b, UpWrite, cfg), cfg)
  {
    hide FilterTools, RelayedIn, Asked, TakesEnvelope, Written;
    var c := Next(b, UpWrite, cfg);
    AskedStays(b, c);
    if b.up.Writing? {
      RelayedSnoc(b.toClient, Written(b.up.frame, b.up.taken));
      WrittenFrame(b.up.frame, b.up.taken);
    }
  }

  lemma {:induction false} RunUpOk(b: Bridge, steps: seq<Step>, cfg: Config)
    requires UpOk(b, cfg)
    ensures UpOk(Run(b, steps, cfg), cfg)
    decreases |steps|
  {
    hide UpOk, Next;
    if steps != [] {
      var c, step := Run(b, steps[..|steps| - 1], cfg), steps[|steps| - 1];
      RunUpOk(b, steps[..|steps| - 1], cfg);
      if step.UpWrite? {
        WriteOk(c, cfg);
      } else if step.UpRead? || step.UpJudge? || step.UpConsume? || step.Others? {
        UpStepOk(c, step, cfg);
      } else {
        DownUpOk(c, step, cfg);
      }
    }
  }

  /** Every server frame is relayed once, in order, changed only by the tool filter and an envelope. */
  lemma ServerFramesInOrder(inbox: seq<ClientFrame>, spool: Spool, steps: seq<Step>, cfg: Config)
    ensures var b := Run(Start(inbox, spool), steps, cfg);
      && |RelayedIn(b.toClient)| == Sent(b) && |b.received| - 1 <= Sent(b) <= |b.received|
      && forall i :: 0 <= i < Sent(b) ==> RelayOf(RelayedIn(b.toClient)[i], b.received[i], cfg)
  {
    hide Run, RelayOf;
    RunUpOk(Start(inbox, spool), steps, cfg);
  }

  /* ---------- the main results ---------- */

  lemma StartFits(inbox: seq<ClientFrame>, spool: Spool, cfg: Config)
    ensures RowsOk(Start(inbox, spool), BridgeIds(spool.delivered))
    ensures UpOk(Start(inbox, spool), cfg)
  {
    hide BridgeIds;
    assert BridgeIds(spool.delivered) + [] + [] == BridgeIds(spool.delivered);
  }

  predicate IdsNotReused(inbox: seq<ClientFrame>) {
    forall i, j :: 0 <= i < j < |inbox| && inbox[i].id.Some? ==> inbox[i].id != inbox[j].id
  }

  /** The client's only frame with this id is a tools/call. */
  predicate OnlyCall(inbox: seq<ClientFrame>, id: int) {
    && (exists i :: 0 <= i < |inbox| && inbox[i].id == Some(id) && inbox[i].methodName == Some(CALL))
    && (forall i :: 0 <= i < |inbox| && inbox[i].id == Some(id) ==> inbox[i].methodName == Some(CALL))
  }

  lemma {:induction false} CarrierIsRelayed(outs: seq<Out>, i: nat) returns (k: nat)
    requires i < |outs| && outs[i].Relayed?
    ensures k < |RelayedIn(outs)| && RelayedIn(outs)[k] == outs[i]
    decreases |outs|
  {
    var n := |outs| - 1;
    if i == n {
      k := |RelayedIn(outs)| - 1;
    } else {
      k := CarrierIsRelayed(outs[..n], i);
    }
  }

  /** A frame that carries an envelope answers a tools/call of this client, and no other request. */
  lemma CarriersAnswerCalls(inbox: seq<ClientFrame>, spool: Spool, steps: seq<Step>, cfg: Config, i: nat)
    requires IdsNotReused(inbox)
    requires var b := Run(Start(inbox, spool), steps, cfg); i < |b.toClient| && b.toClient[i].Relayed? && b.toClient[i].taken.Some?
    ensures var f := Run(Start(inbox, spool), steps, cfg).toClient[i].frame;
      f.id.Some? && !f.hasMethod && !f.error && f.result.Result? && !f.result.isError && OnlyCall(inbox, f.id.value)
  {
    hide Run, RelayedIn, FilterTools, RelayOf;
    var start := Start(inbox, spool);
    StartFits(inbox, spool, cfg);
    RunUpOk(start, steps, cfg);
    StartOk(inbox, spool, cfg);
    RunDownOk(start, steps, cfg);
    var b := Run(start, steps, cfg);
    var k := CarrierIsRelayed(b.toClient, i);
    assert Answers(b, RelayedIn(b.toClient)[k].frame);
    var id := b.toClient[i].frame.id.value;
    var j :| 0 <= j < b.next <= |b.inbox| && b.inbox[j].id == Some(id) && b.inbox[j].methodName == Some(CALL);
    forall m | 0 <= m < |inbox| && inbox[m].id == Some(id) ensures inbox[m].methodName == Some(CALL) {
      assert m == j;
    }
  }
}
