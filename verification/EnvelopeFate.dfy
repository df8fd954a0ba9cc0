/** What becomes of the rows the bridge marks delivered: the frames that take them, and the envelopes in those frames. */
module EnvelopeFate {
  import opened Text
  import opened Spool
  import opened SpoolRuns
  import opened Relay
  import opened RelayEnvelopes

  /** The frames of the client's stream that carry the envelope of row `id`. */
  function CarriersOf(outs: seq<Out>, id: string): nat {
    if outs == [] then 0
    else
      var n := |outs| - 1;
      CarriersOf(outs[..n], id) + if outs[n].Relayed? && outs[n].steer == Some(id) then 1 else 0
  }

  /** The frames for which row `id` was consumed without its envelope getting into them. */
  function LosersOf(outs: seq<Out>, id: string): nat {
    if outs == [] then 0
    else
      var n := |outs| - 1;
      LosersOf(outs[..n], id) + if outs[n].Relayed? && outs[n].taken == Some(id) && outs[n].steer == None then 1 else 0
  }

  /** An envelope is that of the row taken for the frame. */
  predicate OwnEnvelopes(outs: seq<Out>) {
    forall i :: 0 <= i < |outs| && outs[i].Relayed? ==> outs[i].steer == None || outs[i].steer == outs[i].taken
  }

  lemma {:induction false} TakersCount(outs: seq<Out>, id: string)
    requires OwnEnvelopes(outs)
    ensures multiset(TakenIn(outs))[id] == CarriersOf(outs, id) + LosersOf(outs, id)
  {
    if outs != [] {
      TakersCount(outs[..|outs| - 1], id);
    }
  }

  lemma {:induction false} CountRelayed(outs: seq<Out>, id: string)
    ensures CarriersOf(RelayedIn(outs), id) == CarriersOf(outs, id)
    ensures TakenIn(RelayedIn(outs)) == TakenIn(outs)
  {
    if outs != [] {
      var n := |outs| - 1;
      CountRelayed(outs[..n], id);
      if outs[n].Relayed? {
        CarriersSnoc(RelayedIn(outs[..n]), outs[n], id);
        TakenSnoc(RelayedIn(outs[..n]), outs[n]);
      } else {
        assert RelayedIn(outs) == RelayedIn(outs[..n]);
      }
    }
  }

  lemma CarriersSnoc(outs: seq<Out>, o: Out, id: string)
    ensures CarriersOf(outs + [o], id) == CarriersOf(outs, id) + if o.Relayed? && o.steer == Some(id) then 1 else 0
  {
    assert (outs + [o])[..|outs|] == outs;
  }

  /** A server frame can take an envelope before the tool filter exactly when it can after it. */
  lemma FilterKeepsContent(f: ServerFrame, cfg: Config)
    ensures TakesEnvelope(FilterTools(f, cfg)) == TakesEnvelope(f)
  {
    hide Allowed;
  }

  /** The server's result has content, and its block 0 is an object. */
  predicate ObjectFirst(f: ServerFrame) {
    match f.result
    case NoResult => false
    case Result(_, content, _) =>
      match content
      case None => false
      case Some(blocks) => |blocks| > 0 && blocks[0] != NotObject
  }

  lemma ObjectFirstIs(f: ServerFrame)
    ensures ObjectFirst(f) <==> TakesEnvelope(f)
  {
  }

  lemma RelayOfSteer(o: Out, f: ServerFrame, cfg: Config)
    requires RelayOf(o, f, cfg)
    ensures o.steer == if o.taken.Some? && TakesEnvelope(f) then o.taken else None
  {
    hide TakesEnvelope, FilterTools;
    FilterKeepsContent(f, cfg);
    WrittenFrame(FilterTools(f, cfg), o.taken);
  }

  /* ---------- what the bridge leaves as it was ---------- */

  lemma {:induction false} AllowedIs(tools: seq<string>, allow: set<string>)
    ensures Allowed(tools, allow) == Filter(tools, name => name in allow)
  {
    if tools != [] {
      AllowedIs(tools[1..], allow);
    }
  }

  /** The tool list a client gets: with an allow set, the names in it, in order; otherwise the server's own. */
  ghost predicate ToolsFor(sent: Option<seq<string>>, got: Option<seq<string>>, cfg: Config) {
    if cfg.allow.Some? && got.Some? then sent == Some(Filter(got.value, name => name in cfg.allow.value)) else sent == got
  }

  /** A relayed frame against the server's: all the same but for the tool list, and for content after an envelope. */
  ghost predicate Faithful(o: Out, f: ServerFrame, cfg: Config) {
    && o.Relayed? && o.frame.id == f.id && o.frame.hasMethod == f.hasMethod && o.frame.error == f.error
    && (o.frame.result.Result? <==> f.result.Result?)
    && (f.result.Result? ==>
          && o.frame.result.isError == f.result.isError
          && ToolsFor(o.frame.result.tools, f.result.tools, cfg)
          && (o.steer.None? ==> o.frame.result.content == f.result.content)
          && (o.steer.Some? ==> f.result.content.Some? && f.result.content.value != [] &&
                                o.frame.result.content == Some([f.result.content.value[0]])))
    && (o.steer.Some? ==> f.result.Result?)
  }

  lemma RelayIsFaithful(o: Out, f: ServerFrame, cfg: Config)
    requires RelayOf(o, f, cfg)
    ensures Faithful(o, f, cfg)
  {
    hide Filter, Allowed;
    if cfg.allow.Some? && f.result.Result? && f.result.tools.Some? {
      AllowedIs(f.result.tools.value, cfg.allow.value);
    }
  }

  /**
   * In every run each relayed frame is the server's frame in its place: id, method, error and error flag as they were,
   * the tool list cut down to the allowed names with order and repetitions kept, and the content whole unless an
   * envelope took the place of all but block 0.
   */
  lemma RelayedFaithfully(inbox: seq<ClientFrame>, spool: Spool, steps: seq<Step>, cfg: Config, i: nat)
    requires i < |RelayedIn(Run(Start(inbox, spool), steps, cfg).toClient)|
    ensures var b := Run(Start(inbox, spool), steps, cfg);
      i < |b.received| && Faithful(RelayedIn(b.toClient)[i], b.received[i], cfg)
  {
    hide Run, RelayOf, Faithful, RelayedIn;
    ServerFramesInOrder(inbox, spool, steps, cfg);
    var b := Run(Start(inbox, spool), steps, cfg);
    assert RelayOf(RelayedIn(b.toClient)[i], b.received[i], cfg);
    RelayIsFaithful(RelayedIn(b.toClient)[i], b.received[i], cfg);
  }

  /** In every run a relayed frame carries the envelope of the row taken for it exactly when its content block 0 is an object. */
  lemma EnvelopeLostIff(inbox: seq<ClientFrame>, spool: Spool, steps: seq<Step>, cfg: Config, k: nat)
    requires k < |RelayedIn(Run(Start(inbox, spool), steps, cfg).toClient)|
    ensures var b := Run(Start(inbox, spool), steps, cfg);
      var o := RelayedIn(b.toClient)[k];
      && o.Relayed? && k < |b.received| && RelayOf(o, b.received[k], cfg)
      && (o.taken.Some? ==> (o.steer == o.taken <==> ObjectFirst(b.received[k])) && (o.steer == None <==> !ObjectFirst(b.received[k])))
      && (o.taken.None? ==> o.steer == None)
  {
    hide Run, RelayOf, TakesEnvelope, ObjectFirst, RelayedIn;
    ServerFramesInOrder(inbox, spool, steps, cfg);
    var b := Run(Start(inbox, spool), steps, cfg);
    assert RelayOf(RelayedIn(b.toClient)[k], b.received[k], cfg);
    ObjectFirstIs(b.received[k]);
    RelayOfSteer(RelayedIn(b.toClient)[k], b.received[k], cfg);
    RelayOfRelayed(RelayedIn(b.toClient)[k], b.received[k], cfg);
  }

  lemma RelayOfRelayed(o: Out, f: ServerFrame, cfg: Config)
    requires RelayOf(o, f, cfg)
    ensures o.Relayed?
  {
  }

  lemma RunOwnEnvelopes(inbox: seq<ClientFrame>, spool: Spool, steps: seq<Step>, cfg: Config)
    ensures OwnEnvelopes(RelayedIn(Run(Start(inbox, spool), steps, cfg).toClient))
  {
    hide Run, RelayedIn, RelayOf, TakesEnvelope, ObjectFirst;
    var outs := RelayedIn(Run(Start(inbox, spool), steps, cfg).toClient);
    forall i | 0 <= i < |outs| ensures outs[i].Relayed? && (outs[i].steer == None || outs[i].steer == outs[i].taken) {
      EnvelopeLostIff(inbox, spool, steps, cfg, i);
    }
  }

  /** However often the bridge marks a row: each mark is in a carrying frame, in a frame that lost the envelope, or in flight. */
  lemma MarkedRowsTravel(inbox: seq<ClientFrame>, spool: Spool, steps: seq<Step>, cfg: Config, id: string)
    requires AllFair(steps)
    ensures var b := Run(Start(inbox, spool), steps, cfg);
      var outs := RelayedIn(b.toClient);
      multiset(BridgeIds(b.spool.delivered))[id]
      == multiset(BridgeIds(spool.delivered))[id] + CarriersOf(outs, id) + LosersOf(outs, id) + multiset(InFlight(b.up))[id]
  {
    hide Run, BridgeIds, TakenIn, AllFair, CarriersOf, LosersOf, OwnEnvelopes, InFlight;
    StartFits(inbox, spool, cfg);
    var start := Start(inbox, spool);
    var b := Run(start, steps, cfg);
    RunRows(start, steps, cfg, BridgeIds(spool.delivered));
    RunOwnEnvelopes(inbox, spool, steps, cfg);
    TakersCount(RelayedIn(b.toClient), id);
    CountRelayed(b.toClient, id);
  }

  /* ---------- each marked row, once ---------- */

  /** What the run does to the spool, as operations. */
  function SpoolOps(b: Bridge, steps: seq<Step>, cfg: Config): seq<Op>
    decreases |steps|
  {
    if steps == [] then []
    else
      var c, step := Run(b, steps[..|steps| - 1], cfg), steps[|steps| - 1];
      SpoolOps(b, steps[..|steps| - 1], cfg) +
      if step.Others? then [step.op]
      else if step.UpConsume? && c.up.Consuming? then [OpConsume(step.live, step.now, step.at, BRIDGE)] else []
  }

  lemma {:induction false} SpoolIs(b: Bridge, steps: seq<Step>, cfg: Config)
    ensures Run(b, steps, cfg).spool == Exec(b.spool, Strip(cfg.dispatchId), SpoolOps(b, steps, cfg))
    decreases |steps|
  {
    hide Apply, Strip;
    var id := Strip(cfg.dispatchId);
    if steps != [] {
      var c, step := Run(b, steps[..|steps| - 1], cfg), steps[|steps| - 1];
      SpoolIs(b, steps[..|steps| - 1], cfg);
      var front, last := SpoolOps(b, steps[..|steps| - 1], cfg), SpoolOps(b, steps, cfg)[|SpoolOps(b, steps[..|steps| - 1], cfg)|..];
      assert SpoolOps(b, steps, cfg) == front + last;
      ExecConcat(b.spool, id, front, last);
      StepSpool(c, step, cfg, last);
    }
  }

  lemma StepSpool(c: Bridge, step: Step, cfg: Config, last: seq<Op>)
    requires last == if step.Others? then [step.op]
      else if step.UpConsume? && c.up.Consuming? then [OpConsume(step.live, step.now, step.at, BRIDGE)] else []
    ensures Next(c, step, cfg).spool == Exec(c.spool, Strip(cfg.dispatchId), last)
  {
    hide Strip, Consume, Stamp, FilterTools, IsToolsCallResult, Claim, Mark, Append, Expire, InheritInto;
    if last == [] {
      assert Exec(c.spool, Strip(cfg.dispatchId), []) == c.spool;
    } else {
      ExecOne(c.spool, Strip(cfg.dispatchId), last[0]);
      assert last == [last[0]];
    }
  }

  /** Entry ids are fresh: those of the rows on file at the start and of all rows deposited are pairwise distinct. */
  predicate FreshIds(inbox: seq<ClientFrame>, spool: Spool, steps: seq<Step>, cfg: Config) {
    Distinct(IdsOf(AllDeeds(spool) + Deposited(spool, Strip(cfg.dispatchId), SpoolOps(Start(inbox, spool), steps, cfg))))
  }

  lemma {:induction false} BridgeIdsIn(rows: seq<Row>, id: string)
    ensures id in BridgeIds(rows) ==> exists i :: 0 <= i < |rows| && rows[i].entryId == id
  {
    if rows != [] {
      BridgeIdsIn(rows[..|rows| - 1], id);
    }
  }

  lemma {:induction false} BridgeIdsOnce(rows: seq<Row>, id: string)
    requires forall i, j :: 0 <= i < j < |rows| ==> rows[i].entryId != rows[j].entryId
    ensures multiset(BridgeIds(rows))[id] <= 1
  {
    if rows != [] {
      var n := |rows| - 1;
      BridgeIdsOnce(rows[..n], id);
      BridgeIdsIn(rows[..n], id);
      hide BridgeIds;
      BridgeSnoc(rows[..n], rows[n]);
      assert rows == rows[..n] + [rows[n]];
      assert id in BridgeIds(rows[..n]) <==> multiset(BridgeIds(rows[..n]))[id] > 0;
    }
  }

  lemma CountSnoc(outs: seq<Out>, o: Out, id: string)
    requires o.Relayed?
    ensures multiset(TakenIn(outs + [o]))[id] == multiset(TakenIn(outs))[id] + if o.taken == Some(id) then 1 else 0
  {
    hide TakenIn;
    TakenSnoc(outs, o);
  }

  predicate AllRelayed(outs: seq<Out>) {
    forall i :: 0 <= i < |outs| ==> outs[i].Relayed?
  }

  /** No frame but the one at `k` took the row. */
  predicate OnlyTaker(outs: seq<Out>, id: string, k: nat)
    requires AllRelayed(outs)
  {
    forall i :: 0 <= i < |outs| && i != k ==> outs[i].taken != Some(id)
  }

  lemma RelayedFront(outs: seq<Out>)
    requires outs != [] && AllRelayed(outs)
    ensures AllRelayed(outs[..|outs| - 1]) && outs[|outs| - 1].Relayed?
  {
  }

  lemma OnlyLast(outs: seq<Out>, id: string)
    requires outs != [] && AllRelayed(outs) && multiset(TakenIn(outs[..|outs| - 1]))[id] == 0
    ensures OnlyTaker(outs, id, |outs| - 1)
  {
    NoTaker(outs[..|outs| - 1], id);
  }

  lemma OnlyEarlier(outs: seq<Out>, id: string, k: nat)
    requires outs != [] && AllRelayed(outs) && OnlyTaker(outs[..|outs| - 1], id, k) && outs[|outs| - 1].taken != Some(id)
    ensures OnlyTaker(outs, id, k)
  {
  }

  lemma {:induction false} OneTaker(outs: seq<Out>, id: string) returns (k: nat)
    requires AllRelayed(outs) && multiset(TakenIn(outs))[id] == 1
    ensures k < |outs| && outs[k].Relayed? && outs[k].taken == Some(id) && OnlyTaker(outs, id, k)
    decreases |outs|
  {
    assert outs != [];
    hide TakenIn, AllRelayed, OnlyTaker;
    var n := |outs| - 1;
    assert outs == outs[..n] + [outs[n]];
    RelayedFront(outs);
    CountSnoc(outs[..n], outs[n], id);
    if outs[n].taken == Some(id) {
      k := n;
      OnlyLast(outs, id);
    } else {
      k := OneTaker(outs[..n], id);
      OnlyEarlier(outs, id, k);
    }
  }

  lemma {:induction false} NoTaker(outs: seq<Out>, id: string)
    requires multiset(TakenIn(outs))[id] == 0
    ensures forall i :: 0 <= i < |outs| && outs[i].Relayed? ==> outs[i].taken != Some(id)
  {
    if outs != [] {
      NoTaker(outs[..|outs| - 1], id);
    }
  }

  lemma {:induction false} CarriedAt(outs: seq<Out>, id: string, k: nat)
    requires OwnEnvelopes(outs) && (forall i :: 0 <= i < |outs| ==> outs[i].Relayed?)
    requires forall i :: 0 <= i < |outs| && i != k ==> outs[i].taken != Some(id)
    ensures CarriersOf(outs, id) == if k < |outs| && outs[k].steer == Some(id) then 1 else 0
  {
    if outs != [] {
      CarriedAt(outs[..|outs| - 1], id, k);
    }
  }

  lemma MarkedOnce(inbox: seq<ClientFrame>, spool: Spool, steps: seq<Step>, cfg: Config, id: string)
    requires FreshIds(inbox, spool, steps, cfg)
    ensures multiset(BridgeIds(Run(Start(inbox, spool), steps, cfg).spool.delivered))[id] <= 1
  {
    hide Run, BridgeIds, Deposited, Exec, AllDeeds, SpoolOps, Strip;
    var start := Start(inbox, spool);
    var rows := Run(start, steps, cfg).spool.delivered;
    SpoolIs(start, steps, cfg);
    forall i, j | 0 <= i < j < |rows| ensures rows[i].entryId != rows[j].entryId {
      FreshDelivered(spool, Strip(cfg.dispatchId), SpoolOps(start, steps, cfg), i, j);
    }
    BridgeIdsOnce(rows, id);
  }

  /**
   * Whatever the server sends: with fresh entry ids, each row the bridge has marked was taken for exactly one relayed
   * frame, and its envelope is in exactly one frame or in none, as that frame's content block 0 is an object or not.
   */
  lemma MarkedRowFate(inbox: seq<ClientFrame>, spool: Spool, steps: seq<Step>, cfg: Config, id: string) returns (k: nat)
    requires AllFair(steps) && FreshIds(inbox, spool, steps, cfg) && id !in BridgeIds(spool.delivered)
    requires var b := Run(Start(inbox, spool), steps, cfg); id in BridgeIds(b.spool.delivered) && b.up.UpIdle?
    ensures var b := Run(Start(inbox, spool), steps, cfg);
      var outs := RelayedIn(b.toClient);
      && k < |outs| && outs[k].Relayed? && outs[k].taken == Some(id)
      && (forall i :: 0 <= i < |outs| && i != k ==> outs[i].Relayed? && outs[i].taken != Some(id))
      && k < |b.received| && RelayOf(outs[k], b.received[k], cfg)
      && CarriersOf(b.toClient, id) == if ObjectFirst(b.received[k]) then 1 else 0
  {
    hide Run, BridgeIds, TakenIn, AllFair, CarriersOf, LosersOf, OwnEnvelopes, FreshIds, RelayedIn, RelayOf, TakesEnvelope, ObjectFirst;
    var start := Start(inbox, spool);
    var b := Run(start, steps, cfg);
    var outs := RelayedIn(b.toClient);
    MarkedOnce(inbox, spool, steps, cfg, id);
    MarkedRowsTravel(inbox, spool, steps, cfg, id);
    RunOwnEnvelopes(inbox, spool, steps, cfg);
    TakersCount(outs, id);
    CountRelayed(b.toClient, id);
    assert multiset(BridgeIds(spool.delivered))[id] == 0 && multiset(BridgeIds(b.spool.delivered))[id] > 0;
    forall i | 0 <= i < |outs| ensures outs[i].Relayed? { EnvelopeLostIff(inbox, spool, steps, cfg, i); }
    k := OneTaker(outs, id);
    CarriedAt(outs, id, k);
    EnvelopeLostIff(inbox, spool, steps, cfg, k);
  }

  /* ---------- a row that is lost ---------- */

  lemma RunSnoc(b: Bridge, steps: seq<Step>, step: Step, cfg: Config)
    ensures Run(b, steps + [step], cfg) == Next(Run(b, steps, cfg), step, cfg)
  {
    hide Next;
    assert (steps + [step])[..|steps|] == steps;
  }

  /** A request and its answer, relayed without interruption. */
  function Exchange(reply: ServerFrame): seq<Step> {
    [DownRead(false)] + [DownRegister] + [DownForward] + [UpRead(reply)] + [UpJudge] + [UpConsume(Alive, 0, 0)] + [UpWrite]
  }

  lemma RunExchange(b: Bridge, reply: ServerFrame, cfg: Config)
    ensures Run(b, Exchange(reply), cfg) ==
      Next(Next(Next(Next(Next(Next(Next(b, DownRead(false), cfg), DownRegister, cfg), DownForward, cfg),
                                UpRead(reply), cfg), UpJudge, cfg), UpConsume(Alive, 0, 0), cfg), UpWrite, cfg)
  {
    hide Next, Run;
    var s1, s2: seq<Step> := [DownRead(false)], [DownRead(false)] + [DownRegister];
    RunNone(b, cfg);
    RunSnoc(b, [], DownRead(false), cfg);
    assert [] + [DownRead(false)] == s1;
    RunSnoc(b, s1, DownRegister, cfg);
    RunSnoc(b, s2, DownForward, cfg);
    RunSnoc(b, s2 + [DownForward], UpRead(reply), cfg);
    RunSnoc(b, s2 + [DownForward] + [UpRead(reply)], UpJudge, cfg);
    RunSnoc(b, s2 + [DownForward] + [UpRead(reply)] + [UpJudge], UpConsume(Alive, 0, 0), cfg);
    RunSnoc(b, s2 + [DownForward] + [UpRead(reply)] + [UpJudge] + [UpConsume(Alive, 0, 0)], UpWrite, cfg);
  }

  lemma RunNone(b: Bridge, cfg: Config)
    ensures Run(b, [], cfg) == b
  {
  }

  lemma OneDelivered(row: Row)
    requires ByBridge(row)
    ensures BridgeIds([row]) == [row.entryId] && BridgeIds([]) == []
  {
    BridgeSnoc([], row);
    assert [] + [row] == [row];
  }

  lemma OneOut(o: Out, id: string)
    requires o.Relayed? && o.steer == None
    ensures CarriersOf([o], id) == 0
  {
    assert [o][..0] == [];
  }

  /** The bridge once it knows that `reply` answers the call. */
  function AboutToConsume(call: ClientFrame, reply: ServerFrame, spool: Spool): Bridge {
    Bridge([call], 1, DownIdle, Consuming(reply), map[1 := CALL], spool, [call], [], [false], [reply])
  }

  lemma ReachConsuming(call: ClientFrame, reply: ServerFrame, spool: Spool, cfg: Config)
    requires call == ClientFrame(Some(1), Some(CALL), "t", "", false, None, "") && cfg == Config("d", false, None)
    requires reply == ServerFrame(Some(1), false, false, Result(false, Some([NotObject]), None))
    ensures Next(Next(Next(Next(Next(Start([call], spool), DownRead(false), cfg), DownRegister, cfg), DownForward, cfg),
                           UpRead(reply), cfg), UpJudge, cfg) == AboutToConsume(call, reply, spool)
  {
    hide Strip;
    assert Strip(cfg.dispatchId) == "d" by { StripOne(); }
    var b1 := Next(Start([call], spool), DownRead(false), cfg);
    assert b1 == Start([call], spool).(next := 1, verdicts := [false], down := Registering(call));
    var b2 := Next(b1, DownRegister, cfg);
    assert b2 == b1.(down := Forwarding(call), methods := map[1 := CALL]);
    var b3 := Next(b2, DownForward, cfg);
    assert b3 == b2.(down := DownIdle, toServer := [call]);
    var b4 := Next(b3, UpRead(reply), cfg);
    assert b4 == b3.(up := Judging(reply), received := [reply]);
  }

  lemma ConsumeAndWrite(b: Bridge, row: Row, cfg: Config)
    requires b.up.Consuming? && !TakesEnvelope(b.up.frame) && b.toClient == [] && Strip(cfg.dispatchId) == "d"
    requires b.spool == Spool("d", [row], [], []) && !row.claimed
    ensures var c := Next(Next(b, UpConsume(Alive, 0, 0), cfg), UpWrite, cfg);
      && c.spool.delivered == [row.(claimed := true, outcome := DeliveredAt(0, "mcp_bridge"))]
      && |c.toClient| == 1 && c.toClient[0].Relayed? && c.toClient[0].steer == None
  {
    hide Consume, Strip, TakesEnvelope;
    ConsumeTakesFirst(b.spool, "d", 0, 0, BRIDGE);
  }

  /** A result whose content block 0 is not an object uses up a row that no frame carries. */
  lemma LostEnvelope(entryId: string)
    ensures var call := ClientFrame(Some(1), Some(CALL), "t", "", false, None, "");
      var reply := ServerFrame(Some(1), false, false, Result(false, Some([NotObject]), None));
      var spool := Spool("d", [FreshRow(entryId, "a", "go", 0, 0)], [], []);
      var b := Run(Start([call], spool), Exchange(reply), Config("d", false, None));
      BridgeIds(b.spool.delivered) == [entryId] && CarriersOf(b.toClient, entryId) == 0
  {
    hide Run, Next, BridgeIds, CarriersOf, Strip;
    var call := ClientFrame(Some(1), Some(CALL), "t", "", false, None, "");
    var reply := ServerFrame(Some(1), false, false, Result(false, Some([NotObject]), None));
    var row := FreshRow(entryId, "a", "go", 0, 0);
    var spool, cfg := Spool("d", [row], [], []), Config("d", false, None);
    StripOne();
    RunExchange(Start([call], spool), reply, cfg);
    ReachConsuming(call, reply, spool, cfg);
    var b := AboutToConsume(call, reply, spool);
    ConsumeAndWrite(b, row, cfg);
    OneDelivered(row.(claimed := true, outcome := DeliveredAt(0, BRIDGE)));
    var c := Next(Next(b, UpConsume(Alive, 0, 0), cfg), UpWrite, cfg);
    OneOut(c.toClient[0], entryId);
    assert c.toClient == [c.toClient[0]];
  }

  lemma StripOne()
    ensures Strip("d") == "d"
  {
  }
}
