/** The request table of the bridge, and which results may take a steer row. */
module RelayTable {
  import opened Text
  import opened Spool
  import opened SpoolRuns
  import opened Relay
  import opened RelayEnvelopes

  /** Client frames that have been entered in the table or passed by it. */
  function Entered(b: Bridge): nat {
    if b.down.Registering? && b.next > 0 then b.next - 1 else b.next
  }

  /** The method of the last frame under this id that was not refused. */
  function LatestMethod(frames: seq<ClientFrame>, verdicts: seq<bool>, id: int): Option<string>
    requires |verdicts| == |frames|
  {
    if frames == [] then None
    else
      var n := |frames| - 1;
      if !verdicts[n] && frames[n].id == Some(id) && frames[n].methodName.Some? then frames[n].methodName
      else LatestMethod(frames[..n], verdicts[..n], id)
  }

  ghost predicate TableOk(b: Bridge) {
    && b.next <= |b.inbox| && |b.verdicts| == b.next
    && (b.down.Registering? ==> b.next > 0 && b.down.frame == b.inbox[b.next - 1] && !b.verdicts[b.next - 1])
    && forall id :: LatestMethod(b.inbox[..Entered(b)], b.verdicts[..Entered(b)], id)
         == if id in b.methods then Some(b.methods[id]) else None
  }

  lemma LatestNext(frames: seq<ClientFrame>, verdicts: seq<bool>, n: nat, id: int)
    requires n < |frames| && n < |verdicts|
    ensures LatestMethod(frames[..n + 1], verdicts[..n + 1], id) ==
      if !verdicts[n] && frames[n].id == Some(id) && frames[n].methodName.Some? then frames[n].methodName
      else LatestMethod(frames[..n], verdicts[..n], id)
  {
    TakeOne(frames, n);
    TakeOne(verdicts, n);
  }

  lemma ReadKeepsTable(b: Bridge, refuse: bool, cfg: Config)
    requires TableOk(b)
    ensures TableOk(Next(b, DownRead(refuse), cfg))
  {
    hide LatestMethod, Stamp;
    var c := Next(b, DownRead(refuse), cfg);
    if b.down.DownIdle? && b.next < |b.inbox| {
      assert c.verdicts[..b.next] == b.verdicts[..b.next];
      if refuse {
        forall id ensures LatestMethod(c.inbox[..b.next + 1], c.verdicts[..b.next + 1], id)
          == LatestMethod(b.inbox[..b.next], b.verdicts[..b.next], id)
        {
          LatestNext(c.inbox, c.verdicts, b.next, id);
        }
      }
    }
  }

  lemma RegisterKeepsTable(b: Bridge, cfg: Config)
    requires TableOk(b)
    ensures TableOk(Next(b, DownRegister, cfg))
  {
    hide LatestMethod, Stamp;
    var c := Next(b, DownRegister, cfg);
    if b.down.Registering? {
      StampKeeps(b.down.frame, cfg);
      forall id ensures LatestMethod(c.inbox[..b.next], c.verdicts[..b.next], id) == if id in c.methods then Some(c.methods[id]) else None {
        LatestNext(b.inbox, b.verdicts, b.next - 1, id);
      }
    }
  }

  lemma OthersKeepTable(b: Bridge, step: Step, cfg: Config)
    requires TableOk(b) && !step.DownRead? && !step.DownRegister?
    ensures TableOk(Next(b, step, cfg))
  {
    hide LatestMethod, Stamp, Consume, Apply, FilterTools, IsToolsCallResult, Written;
  }

  /** In every run the table holds, for each id, the method of the client's last frame under it that was not refused. */
  lemma {:induction false} TableIsLatest(inbox: seq<ClientFrame>, spool: Spool, steps: seq<Step>, cfg: Config)
    ensures TableOk(Run(Start(inbox, spool), steps, cfg))
    decreases |steps|
  {
    if steps == [] {
      assert Run(Start(inbox, spool), steps, cfg) == Start(inbox, spool);
    } else {
      hide TableOk, Next;
      var c, step := Run(Start(inbox, spool), steps[..|steps| - 1], cfg), steps[|steps| - 1];
      TableIsLatest(inbox, spool, steps[..|steps| - 1], cfg);
      if step.DownRead? {
        ReadKeepsTable(c, step.refuse, cfg);
      } else if step.DownRegister? {
        RegisterKeepsTable(c, cfg);
      } else {
        OthersKeepTable(c, step, cfg);
      }
    }
  }

  /** A result that answers a request: an id, no method, no error, and a result that is not an error and has content. */
  predicate GoodResult(f: ServerFrame) {
    match f.result
    case NoResult => false
    case Result(isError, content, _) =>
      f.id != None && !f.hasMethod && !f.error && !isError && content != None && content.value != []
  }

  /**
   * In every run, a frame under judgement goes on to take a steer row exactly when the dispatch has an id, the frame is
   * a good result, and the client's last request under its id, refused ones aside, was a tools/call.
   */
  lemma TakesRowIff(inbox: seq<ClientFrame>, spool: Spool, steps: seq<Step>, cfg: Config)
    requires Run(Start(inbox, spool), steps, cfg).up.Judging?
    ensures var b := Run(Start(inbox, spool), steps, cfg);
      && b.next <= |b.inbox| && |b.verdicts| == b.next
      && var f := b.up.frame;
      && (Next(b, UpJudge, cfg).up == Consuming(f) <==>
            && Strip(cfg.dispatchId) != "" && GoodResult(f)
            && LatestMethod(b.inbox[..Entered(b)], b.verdicts[..Entered(b)], f.id.value) == Some("tools/call"))
      && (Next(b, UpJudge, cfg).up != Consuming(f) ==> Next(b, UpJudge, cfg).up == Writing(f, None))
  {
    hide Run, LatestMethod, Strip;
    TableIsLatest(inbox, spool, steps, cfg);
    var b := Run(Start(inbox, spool), steps, cfg);
    if b.up.frame.id.Some? {
      assert LatestMethod(b.inbox[..Entered(b)], b.verdicts[..Entered(b)], b.up.frame.id.value)
          == if b.up.frame.id.value in b.methods then Some(b.methods[b.up.frame.id.value]) else None;
    }
  }

  /** It then takes the oldest due row, if there is one, and leaves the spool as it was if there is none. */
  lemma TakesOldestRow(b: Bridge, live: Live, now: int, at: int, cfg: Config)
    requires b.up.Consuming?
    ensures var c := Next(b, UpConsume(live, now, at), cfg);
      && c.up.Writing? && c.up.frame == b.up.frame
      && (c.up.taken.Some? <==> !live.Ended? && exists i :: 0 <= i < |b.spool.pending| && OldestDue(b.spool.pending, i, live, now))
      && (c.up.taken.None? ==> c.spool == b.spool)
      && (forall i :: 0 <= i < |b.spool.pending| && c.up.taken.Some? && OldestDue(b.spool.pending, i, live, now) ==>
            c.up.taken == Some(b.spool.pending[i].entryId))
  {
    hide Consume, OldestDue, Strip;
    ConsumeTakesOldest(b.spool, Strip(cfg.dispatchId), live, now, at, BRIDGE);
    var row := Consume(b.spool, Strip(cfg.dispatchId), live, now, at, BRIDGE).1;
    var c := Next(b, UpConsume(live, now, at), cfg);
    assert c.up.taken.Some? <==> row.Some?;
    assert row.Some? ==> exists i :: 0 <= i < |b.spool.pending| && OldestDue(b.spool.pending, i, live, now);
    forall i | 0 <= i < |b.spool.pending| && OldestDue(b.spool.pending, i, live, now)
      ensures row.Some? <==> !live.Ended?
    {
    }
  }
}
