/** The stdio bridge: two relay threads between a client and its server, sharing a request table and the steer spool. */
module Relay {
  import opened Text
  import opened Spool
  import opened SpoolRuns

  const BRIDGE := "mcp_bridge"
  const CALL := "tools/call"

  /** A client frame; the last four fields are what `team_dispatch` arguments carry. */
  datatype ClientFrame = ClientFrame(
    id: Option<int>, methodName: Option<string>, tool: string, op: string, resumes: bool, caller: Option<string>, rest: string)

  datatype Block = Object(text: string) | NotObject

  datatype ResultPart = NoResult | Result(isError: bool, content: Option<seq<Block>>, tools: Option<seq<string>>)

  datatype ServerFrame = ServerFrame(id: Option<int>, hasMethod: bool, error: bool, result: ResultPart)

  /**
   * What the client gets. `taken` is a history variable: the spool row consumed while relaying the frame;
   * `steer` is the row whose envelope is in the frame.
   */
  datatype Out =
    | Refused(id: Option<int>)
    | Relayed(frame: ServerFrame, taken: Option<string>, steer: Option<string>)

  datatype Config = Config(dispatchId: string, stampOn: bool, allow: Option<set<string>>)

  datatype Down = DownIdle | Refusing(frame: ClientFrame) | Registering(frame: ClientFrame) | Forwarding(frame: ClientFrame)

  datatype Up = UpIdle | Judging(frame: ServerFrame) | Consuming(frame: ServerFrame)
              | Writing(frame: ServerFrame, taken: Option<string>)

  /** `verdicts` (refused or not, per client frame taken) and `received` are history variables. */
  datatype Bridge = Bridge(
    inbox: seq<ClientFrame>, next: nat, down: Down, up: Up, methods: map<int, string>, spool: Spool,
    toServer: seq<ClientFrame>, toClient: seq<Out>, verdicts: seq<bool>, received: seq<ServerFrame>)

  datatype Step =
    | DownRead(refuse: bool) | DownRefuse | DownRegister | DownForward
    | UpRead(frame: ServerFrame) | UpJudge | UpConsume(live: Live, now: int, at: int) | UpWrite
    | Others(op: Op)

  /* ---------- frames ---------- */

  /** Sets or removes the caller id of a resuming generate. */
  function Stamp(f: ClientFrame, cfg: Config): ClientFrame {
    if f.methodName != Some(CALL) || f.tool != "team_dispatch" then f
    else if !cfg.stampOn then f.(caller := None)
    else if Strip(cfg.dispatchId) == "" || f.op != "generate" || !f.resumes then f
    else f.(caller := Some(Strip(cfg.dispatchId)))
  }

  function Allowed(tools: seq<string>, allow: set<string>): seq<string> {
    if tools == [] then [] else (if tools[0] in allow then [tools[0]] else []) + Allowed(tools[1..], allow)
  }

  function FilterTools(f: ServerFrame, cfg: Config): ServerFrame {
    if cfg.allow.Some? && f.result.Result? && f.result.tools.Some?
    then f.(result := f.result.(tools := Some(Allowed(f.result.tools.value, cfg.allow.value)))) else f
  }

  predicate IsToolsCallResult(f: ServerFrame, methods: map<int, string>) {
    && f.id.Some? && !f.hasMethod && f.id.value in methods && methods[f.id.value] == CALL && !f.error
    && f.result.Result? && !f.result.isError && f.result.content.Some? && f.result.content.value != []
  }

  /** An envelope can be appended after the first content block only if that block is an object. */
  predicate TakesEnvelope(f: ServerFrame) {
    f.result.Result? && f.result.content.Some? && f.result.content.value != [] && f.result.content.value[0].Object?
  }

  /** With an envelope, content block 0 is all that is kept of the result's own content. */
  function Written(f: ServerFrame, taken: Option<string>): Out {
    if taken.Some? && TakesEnvelope(f)
    then Relayed(f.(result := f.result.(content := Some([f.result.content.value[0]]))), taken, taken)
    else Relayed(f, taken, None)
  }

  /* ---------- steps ---------- */

  /** One step of either thread or of another process on the spool; a step not enabled changes nothing. */
  function Next(b: Bridge, step: Step, cfg: Config): Bridge {
    match step
    case DownRead(refuse) =>
      if b.down.DownIdle? && b.next < |b.inbox|
      then b.(next := b.next + 1, verdicts := b.verdicts + [refuse],
              down := if refuse then Refusing(b.inbox[b.next]) else Registering(b.inbox[b.next]))
      else b
    case DownRefuse =>
      if b.down.Refusing? then b.(down := DownIdle, toClient := b.toClient + [Refused(b.down.frame.id)]) else b
    case DownRegister =>
      if b.down.Registering?
      then
        var f := Stamp(b.down.frame, cfg);
        var asks := f.id.Some? && f.methodName.Some?;
        b.(down := Forwarding(f), methods := if asks then b.methods[f.id.value := f.methodName.value] else b.methods)
      else b
    case DownForward =>
      if b.down.Forwarding? then b.(down := DownIdle, toServer := b.toServer + [b.down.frame]) else b
    case UpRead(frame) =>
      if b.up.UpIdle? then b.(up := Judging(FilterTools(frame, cfg)), received := b.received + [frame]) else b
    case UpJudge =>
      if b.up.Judging?
      then b.(up := if IsToolsCallResult(b.up.frame, b.methods) && Strip(cfg.dispatchId) != ""
                    then Consuming(b.up.frame) else Writing(b.up.frame, None))
      else b
    case UpConsume(live, now, at) =>
      if b.up.Consuming?
      then
        var (s, row) := Consume(b.spool, Strip(cfg.dispatchId), live, now, at, BRIDGE);
        b.(spool := s, up := Writing(b.up.frame, if row.Some? then Some(row.value.entryId) else None))
      else b
    case UpWrite =>
      if b.up.Writing? then b.(up := UpIdle, toClient := b.toClient + [Written(b.up.frame, b.up.taken)]) else b
    case Others(op) => b.(spool := Apply(b.spool, Strip(cfg.dispatchId), op))
  }

  function Run(b: Bridge, steps: seq<Step>, cfg: Config): Bridge
    decreases |steps|
  {
    if steps == [] then b else Next(Run(b, steps[..|steps| - 1], cfg), steps[|steps| - 1], cfg)
  }

  function Start(inbox: seq<ClientFrame>, spool: Spool): Bridge {
    Bridge(inbox, 0, DownIdle, UpIdle, map[], spool, [], [], [], [])
  }

  /* ---------- each client frame goes one way ---------- */

  function Forwarded(frames: seq<ClientFrame>, verdicts: seq<bool>, cfg: Config): seq<ClientFrame>
    requires |verdicts| == |frames|
  {
    if frames == [] then []
    else
      var n := |frames| - 1;
      Forwarded(frames[..n], verdicts[..n], cfg) + if verdicts[n] then [] else [Stamp(frames[n], cfg)]
  }

  function RefusedIds(frames: seq<ClientFrame>, verdicts: seq<bool>): seq<Option<int>>
    requires |verdicts| == |frames|
  {
    if frames == [] then []
    else
      var n := |frames| - 1;
      RefusedIds(frames[..n], verdicts[..n]) + if verdicts[n] then [frames[n].id] else []
  }

  function Refusals(outs: seq<Out>): seq<Option<int>> {
    if outs == [] then []
    else
      var n := |outs| - 1;
      Refusals(outs[..n]) + if outs[n].Refused? then [outs[n].id] else []
  }

  /** Client frames fully dealt with. */
  function Done(b: Bridge): nat {
    if b.down.DownIdle? || b.next == 0 then b.next else b.next - 1
  }

  predicate DownOk(b: Bridge, cfg: Config) {
    && b.next <= |b.inbox| && |b.verdicts| == b.next && (!b.down.DownIdle? ==> b.next > 0)
    && b.toServer == Forwarded(b.inbox[..Done(b)], b.verdicts[..Done(b)], cfg)
    && Refusals(b.toClient) == RefusedIds(b.inbox[..Done(b)], b.verdicts[..Done(b)])
    && match b.down
       case DownIdle => true
       case Refusing(f) => f == b.inbox[b.next - 1] && b.verdicts[b.next - 1]
       case Registering(f) => f == b.inbox[b.next - 1] && !b.verdicts[b.next - 1]
       case Forwarding(f) => f == Stamp(b.inbox[b.next - 1], cfg) && !b.verdicts[b.next - 1]
  }

  lemma RefusalsSnoc(outs: seq<Out>, o: Out)
    ensures Refusals(outs + [o]) == Refusals(outs) + if o.Refused? then [o.id] else []
  {
    assert (outs + [o])[..|outs|] == outs;
  }

  lemma TakeOne<T>(s: seq<T>, n: nat)
    requires n < |s|
    ensures s[..n + 1][..n] == s[..n] && s[..n + 1][n] == s[n]
  {
  }

  /** The last taken frame, once dealt with, goes to exactly one of the two lists. */
  lemma OneMoreDone(frames: seq<ClientFrame>, verdicts: seq<bool>, n: nat, cfg: Config)
    requires n < |frames| && n < |verdicts|
    ensures Forwarded(frames[..n + 1], verdicts[..n + 1], cfg)
         == Forwarded(frames[..n], verdicts[..n], cfg) + if verdicts[n] then [] else [Stamp(frames[n], cfg)]
    ensures RefusedIds(frames[..n + 1], verdicts[..n + 1])
         == RefusedIds(frames[..n], verdicts[..n]) + if verdicts[n] then [frames[n].id] else []
  {
    hide Stamp;
    TakeOne(frames, n);
    TakeOne(verdicts, n);
  }

  lemma DownReadOk(b: Bridge, refuse: bool, cfg: Config)
    requires DownOk(b, cfg)
    ensures DownOk(Next(b, DownRead(refuse), cfg), cfg)
  {
    hide Forwarded, RefusedIds, Refusals, Stamp;
    var c := Next(b, DownRead(refuse), cfg);
    if b.down.DownIdle? && b.next < |b.inbox| {
      assert c.verdicts[..b.next] == b.verdicts[..b.next];
    }
  }

  lemma DownDoneOk(b: Bridge, step: Step, cfg: Config)
    requires DownOk(b, cfg) && (step.DownRefuse? || step.DownForward?)
    ensures DownOk(Next(b, step, cfg), cfg)
  {
    hide Forwarded, RefusedIds, Refusals, Stamp;
    if b.next > 0 {
      OneMoreDone(b.inbox, b.verdicts, b.next - 1, cfg);
    }
    if b.down.Refusing? {
      RefusalsSnoc(b.toClient, Refused(b.down.frame.id));
    }
  }

  lemma UpKeepsDown(b: Bridge, step: Step, cfg: Config)
    requires DownOk(b, cfg) && !step.DownRead? && !step.DownRefuse? && !step.DownForward?
    ensures DownOk(Next(b, step, cfg), cfg)
  {
    hide Forwarded, RefusedIds, Refusals, Stamp, Consume, Apply, FilterTools, IsToolsCallResult;
    if step.UpWrite? && b.up.Writing? {
      RefusalsSnoc(b.toClient, Written(b.up.frame, b.up.taken));
    }
  }

  lemma {:induction false} RunDownOk(b: Bridge, steps: seq<Step>, cfg: Config)
    requires DownOk(b, cfg)
    ensures DownOk(Run(b, steps, cfg), cfg) && Run(b, steps, cfg).inbox == b.inbox
    decreases |steps|
  {
    hide DownOk;
    if steps != [] {
      var c, step := Run(b, steps[..|steps| - 1], cfg), steps[|steps| - 1];
      RunDownOk(b, steps[..|steps| - 1], cfg);
      InboxStays(c, step, cfg);
      if step.DownRead? {
        DownReadOk(c, step.refuse, cfg);
      } else if step.DownRefuse? || step.DownForward? {
        DownDoneOk(c, step, cfg);
      } else {
        UpKeepsDown(c, step, cfg);
      }
    }
  }

  lemma InboxStays(b: Bridge, step: Step, cfg: Config)
    ensures Next(b, step, cfg).inbox == b.inbox
  {
    hide Consume, Apply, Stamp;
  }

  lemma {:induction false} OneWay(frames: seq<ClientFrame>, verdicts: seq<bool>, cfg: Config)
    requires |verdicts| == |frames|
    ensures |Forwarded(frames, verdicts, cfg)| + |RefusedIds(frames, verdicts)| == |frames|
  {
    hide Stamp;
    if frames != [] {
      OneWay(frames[..|frames| - 1], verdicts[..|frames| - 1], cfg);
    }
  }

  /**
   * Over every interleaving: the frames forwarded, and the refusals the client gets, are in order the frames judged
   * good and those judged bad among the ones dealt with; each is in one list, once.
   */
  lemma EachFrameOneWay(inbox: seq<ClientFrame>, spool: Spool, steps: seq<Step>, cfg: Config)
    ensures var b := Run(Start(inbox, spool), steps, cfg);
      && b.next <= |inbox| && |b.verdicts| == b.next && b.next - 1 <= Done(b) <= b.next
      && b.toServer == Forwarded(inbox[..Done(b)], b.verdicts[..Done(b)], cfg)
      && Refusals(b.toClient) == RefusedIds(inbox[..Done(b)], b.verdicts[..Done(b)])
      && |b.toServer| + |Refusals(b.toClient)| == Done(b)
  {
    hide Run, Forwarded, RefusedIds, Refusals;
    StartOk(inbox, spool, cfg);
    RunDownOk(Start(inbox, spool), steps, cfg);
    var b := Run(Start(inbox, spool), steps, cfg);
    OneWay(inbox[..Done(b)], b.verdicts[..Done(b)], cfg);
  }

  lemma StartOk(inbox: seq<ClientFrame>, spool: Spool, cfg: Config)
    ensures DownOk(Start(inbox, spool), cfg)
  {
  }

  /* ---------- whose dispatch a forwarded frame names ---------- */

  predicate IsDispatchCall(f: ClientFrame) {
    f.methodName == Some(CALL) && f.tool == "team_dispatch"
  }

  /** Calls whose caller is left to the client: stamping is on, but there is nothing to stamp, or this is no resume. */
  predicate CallerLeft(f: ClientFrame, cfg: Config) {
    cfg.stampOn && (Strip(cfg.dispatchId) == "" || f.op != "generate" || !f.resumes)
  }

  /** A caller other than the bridge's own dispatch. */
  predicate Foreign(caller: Option<string>, cfg: Config) {
    caller.Some? && caller.value != Strip(cfg.dispatchId)
  }

  /** Where the forwarded frames come from: the positions of the frames judged good. */
  function Sources(verdicts: seq<bool>): seq<nat> {
    if verdicts == [] then []
    else
      var n := |verdicts| - 1;
      Sources(verdicts[..n]) + if verdicts[n] then [] else [n]
  }

  lemma {:induction false} SourcesAre(frames: seq<ClientFrame>, verdicts: seq<bool>, cfg: Config, i: nat)
    requires |verdicts| == |frames| && i < |Forwarded(frames, verdicts, cfg)|
    ensures |Sources(verdicts)| == |Forwarded(frames, verdicts, cfg)|
    ensures Sources(verdicts)[i] < |frames| && !verdicts[Sources(verdicts)[i]]
    ensures Forwarded(frames, verdicts, cfg)[i] == Stamp(frames[Sources(verdicts)[i]], cfg)
  {
    hide Stamp;
    var n := |frames| - 1;
    var front := Forwarded(frames[..n], verdicts[..n], cfg);
    SourcesLength(frames[..n], verdicts[..n], cfg);
    if i < |front| {
      SourcesAre(frames[..n], verdicts[..n], cfg, i);
    }
  }

  lemma {:induction false} SourcesLength(frames: seq<ClientFrame>, verdicts: seq<bool>, cfg: Config)
    requires |verdicts| == |frames|
    ensures |Sources(verdicts)| == |Forwarded(frames, verdicts, cfg)|
  {
    hide Stamp;
    if frames != [] {
      SourcesLength(frames[..|frames| - 1], verdicts[..|frames| - 1], cfg);
    }
  }

  lemma StampMeans(f: ClientFrame, cfg: Config)
    ensures Stamp(f, cfg).(caller := f.caller) == f
    ensures !IsDispatchCall(f) || CallerLeft(f, cfg) ==> Stamp(f, cfg) == f
    ensures IsDispatchCall(f) && !CallerLeft(f, cfg) ==>
      Stamp(f, cfg).caller == if cfg.stampOn then Some(Strip(cfg.dispatchId)) else None
  {
    hide Strip;
  }

  /**
   * Over every interleaving, the frame the server gets at position `i` is the client's frame at its source, but for
   * the caller. A `team_dispatch` call reaches the server naming a dispatch that is not the bridge's own exactly when
   * the client named one and the call is one whose caller is left to the client.
   */
  lemma ForwardedCallers(inbox: seq<ClientFrame>, spool: Spool, steps: seq<Step>, cfg: Config, i: nat)
    requires i < |Run(Start(inbox, spool), steps, cfg).toServer|
    ensures var b := Run(Start(inbox, spool), steps, cfg);
      && Done(b) <= |b.verdicts| && i < |Sources(b.verdicts[..Done(b)])|
      && var j, sent := Sources(b.verdicts[..Done(b)])[i], b.toServer[i];
      && j < |inbox| && sent.(caller := inbox[j].caller) == inbox[j]
      && (!IsDispatchCall(inbox[j]) ==> sent == inbox[j])
      && (IsDispatchCall(inbox[j]) ==>
            (Foreign(sent.caller, cfg) <==> Foreign(inbox[j].caller, cfg) && CallerLeft(inbox[j], cfg)))
      && (IsDispatchCall(inbox[j]) && !CallerLeft(inbox[j], cfg) ==>
            sent.caller == if cfg.stampOn then Some(Strip(cfg.dispatchId)) else None)
  {
    hide Run, Stamp, Strip, Forwarded, RefusedIds, Refusals, IsDispatchCall, CallerLeft;
    EachFrameOneWay(inbox, spool, steps, cfg);
    var b := Run(Start(inbox, spool), steps, cfg);
    SourcesAre(inbox[..Done(b)], b.verdicts[..Done(b)], cfg, i);
    StampMeans(inbox[Sources(b.verdicts[..Done(b)])[i]], cfg);
  }
}
