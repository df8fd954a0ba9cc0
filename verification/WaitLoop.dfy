/** The wait for the end of a stream: three interacting counters over arbitrary replies. */
module WaitLoop {
  import opened Text

  datatype Reply =
    | Harvested | NoReplyYet | IncompleteDom | Unauthenticated | Dormant | StreamingNow
    | Unreachable | NotAttached | Conflict | Refused | HttpError
    | Other

  /** One harvest; `cursor` is `None` when absent or not a number. */
  datatype Harvest = Harvest(outcome: Reply, streaming: bool, stop: bool, toolPause: bool, cursor: Option<int>, turns: nat)

  /** What one turn of the loop sees: the harvest, if there was one, and whether the lane still has rows. */
  datatype Poll = Poll(harvest: Option<Harvest>, laneRows: bool)

  /** The limits that the environment may set. */
  datatype Limits = Limits(holdMax: int, confirmations: int)

  const MISS_LIMIT := 5

  datatype Waiting = Waiting(idle: nat, hold: nat, miss: nat, cursor: Option<int>)

  datatype Reason = IdleEnd | HarvestStop | HarvestUnreachable

  datatype Source = Streaming | Advanced | ToolPause | Settled | Hold | IdlePoll

  predicate Misses(outcome: Reply) {
    outcome.Unreachable? || outcome.NotAttached? || outcome.Conflict? || outcome.Refused? || outcome.HttpError?
  }

  predicate CursorAdvanced(baseline: Option<int>, current: Option<int>) {
    current.Some? && (baseline.None? || current.value > baseline.value)
  }

  predicate Streams(h: Harvest) {
    h.streaming || h.outcome.StreamingNow?
  }

  predicate HarvestSettled(h: Harvest) {
    !Streams(h) && h.outcome.Harvested? && h.turns > 0
  }

  function IdleStep(h: Harvest, prev: Option<int>, laneRows: bool, idle: nat, hold: nat, holdMax: int): (nat, nat, Source) {
    if Streams(h) then (0, 0, Streaming)
    else if CursorAdvanced(prev, h.cursor) then (0, 0, Advanced)
    else if h.toolPause then (idle + 1, hold, ToolPause)
    else if HarvestSettled(h) then (idle + 1, hold, Settled)
    else if laneRows && hold < holdMax then (0, hold + 1, Hold)
    else (idle + 1, hold, IdlePoll)
  }

  /** The end test, branch by branch. */
  predicate Terminal(outcome: Reply, stop: bool, streaming: bool, toolPause: bool, streak: nat, confirmations: int) {
    if Misses(outcome) then streak >= 5
    else if stop && !streaming then true
    else if toolPause && streak >= confirmations then true
    else if outcome.Harvested? && !streaming && streak >= confirmations then true
    else if (outcome.NoReplyYet? || outcome.IncompleteDom? || outcome.Unauthenticated? || outcome.Dormant?)
            && !streaming && streak >= confirmations then true
    else !streaming && streak >= confirmations
  }

  /** One turn of the loop. */
  function Turn(w: Waiting, poll: Poll, lim: Limits): (Waiting, Option<Reason>) {
    match poll.harvest
    case None =>
      (w.(miss := w.miss + 1), if w.miss + 1 >= MISS_LIMIT then Some(HarvestUnreachable) else None)
    case Some(h) =>
      var miss := if Misses(h.outcome) then w.miss + 1 else 0;
      var (idle, hold, _) := IdleStep(h, w.cursor, poll.laneRows, w.idle, w.hold, lim.holdMax);
      var next := Waiting(idle, hold, miss, if h.cursor.Some? then h.cursor else w.cursor);
      if Terminal(h.outcome, h.stop, h.streaming, h.toolPause, idle, lim.confirmations)
      then (next, Some(if h.stop then HarvestStop else IdleEnd))
      else (next, if miss >= MISS_LIMIT then Some(HarvestUnreachable) else None)
  }

  /** The loop over the replies given; no reason while they do not make it end. */
  function WaitRun(w: Waiting, polls: seq<Poll>, lim: Limits): (Waiting, Option<Reason>)
    decreases |polls|
  {
    if polls == [] then (w, None)
    else
      var (next, reason) := Turn(w, polls[0], lim);
      if reason.Some? then (next, reason) else WaitRun(next, polls[1..], lim)
  }

  const START: Waiting := Waiting(0, 0, 0, None)

  method WaitForStreamEnd(polls: seq<Poll>, lim: Limits, cursor: Option<int>) returns (reason: Option<Reason>, last: Option<int>)
    ensures var r := WaitRun(START.(cursor := cursor), polls, lim); reason == r.1 && last == r.0.cursor
  {
    var idle: nat, hold: nat, miss: nat := 0, 0, 0;
    last := cursor;
    for i := 0 to |polls|
      invariant WaitRun(START.(cursor := cursor), polls, lim) == WaitRun(Waiting(idle, hold, miss, last), polls[i..], lim)
    {
      assert polls[i..][0] == polls[i] && polls[i..][1..] == polls[i + 1..];
      var prev := last;
      if polls[i].harvest.None? {
        miss := miss + 1;
        if miss >= MISS_LIMIT {
          return Some(HarvestUnreachable), last;
        }
        continue;
      }
      var h := polls[i].harvest.value;
      miss := if Misses(h.outcome) then miss + 1 else 0;
      if h.cursor.Some? {
        last := h.cursor;
      }
      var (idle', hold', _) := IdleStep(h, prev, polls[i].laneRows, idle, hold, lim.holdMax);
      idle, hold := idle', hold';
      if Terminal(h.outcome, h.stop, h.streaming, h.toolPause, idle, lim.confirmations) {
        return Some(if h.stop then HarvestStop else IdleEnd), last;
      }
      if miss >= MISS_LIMIT {
        return Some(HarvestUnreachable), last;
      }
    }
    reason := None;
  }

  /* ---------- when the loop ends ---------- */

  /** Consecutive idle polls that an outcome needs before the wait may end for idleness. */
  function Required(outcome: Reply, lim: Limits): int {
    if Failing(outcome) then 5 else lim.confirmations
  }

  /** The harvest failed. */
  predicate Failing(outcome: Reply) {
    outcome in {Unreachable, NotAttached, Conflict, Refused, HttpError}
  }

  /** The reply shows a stream under way. */
  predicate UnderWay(h: Harvest) {
    h.streaming || h.outcome == StreamingNow
  }

  /** The reply names a later turn than the last one known, or the first one. */
  predicate MovesOn(last: Option<int>, h: Harvest) {
    h.cursor.Some? && (last == None || last.value < h.cursor.value)
  }

  /**
   * The end test amounts to two rules: an honoured stop flag, or a long enough idle streak on a poll that failed, does
   * not stream, or pauses for a tool. With a positive confirmations limit a streaming poll never has such a streak.
   */
  lemma TerminalIff(w: Waiting, poll: Poll, lim: Limits)
    requires poll.harvest.Some?
    ensures var h := poll.harvest.value;
      var streak := IdleStep(h, w.cursor, poll.laneRows, w.idle, w.hold, lim.holdMax).0;
      && (Terminal(h.outcome, h.stop, h.streaming, h.toolPause, streak, lim.confirmations) <==>
            || (h.stop && !h.streaming && !Failing(h.outcome))
            || (streak >= Required(h.outcome, lim) && (Failing(h.outcome) || !h.streaming || h.toolPause)))
      && (lim.confirmations >= 1 && streak >= Required(h.outcome, lim) ==> !h.streaming)
  {
  }

  datatype Kind = Missed | Reset | Held | Counted

  /**
   * What a poll does to the streaks: a stream or a new turn starts them over; a tool pause, a settled harvest, or an
   * idle lane counts; a lane that still has rows is held, as long as holds are left.
   */
  function KindOf(w: Waiting, poll: Poll, lim: Limits): Kind {
    match poll.harvest
    case None => Missed
    case Some(h) =>
      if UnderWay(h) || MovesOn(w.cursor, h) then Reset
      else if !h.toolPause && !(h.outcome == Harvested && h.turns > 0) && poll.laneRows && w.hold < lim.holdMax then Held
      else Counted
  }

  /** The polls the loop has looked at, up to and including the one that ended it. */
  function Trace(w: Waiting, polls: seq<Poll>, lim: Limits): seq<Kind>
    decreases |polls|
  {
    if polls == [] then []
    else
      var (next, reason) := Turn(w, polls[0], lim);
      [KindOf(w, polls[0], lim)] + if reason.Some? then [] else Trace(next, polls[1..], lim)
  }

  /** Counted polls since the last stream, cursor advance or hold; unanswered polls are skipped. */
  function TailCount(kinds: seq<Kind>, before: nat): nat
    decreases |kinds|
  {
    if kinds == [] then before
    else TailCount(kinds[1..], match kinds[0] case Missed => before case Reset => 0 case Held => 0 case Counted => before + 1)
  }

  lemma {:induction false} StreakIsTail(w: Waiting, polls: seq<Poll>, lim: Limits)
    ensures WaitRun(w, polls, lim).0.idle == TailCount(Trace(w, polls, lim), w.idle)
    decreases |polls|
  {
    if polls != [] {
      var (next, reason) := Turn(w, polls[0], lim);
      var kinds := Trace(w, polls, lim);
      assert kinds[1..] == if reason.Some? then [] else Trace(next, polls[1..], lim);
      assert next.idle == TailCount([kinds[0]], w.idle);
      assert reason.Some? ==> kinds == [kinds[0]];
      if reason.None? {
        StreakIsTail(next, polls[1..], lim);
      }
    }
  }

  /** Holds since the last stream or new turn. */
  function HoldCount(kinds: seq<Kind>, before: nat): nat
    decreases |kinds|
  {
    if kinds == [] then before
    else HoldCount(kinds[1..], match kinds[0] case Missed => before case Reset => 0 case Held => before + 1 case Counted => before)
  }

  lemma {:induction false} HoldsAreCounted(w: Waiting, polls: seq<Poll>, lim: Limits)
    ensures WaitRun(w, polls, lim).0.hold == HoldCount(Trace(w, polls, lim), w.hold)
    decreases |polls|
  {
    if polls != [] {
      var (next, reason) := Turn(w, polls[0], lim);
      var kinds := Trace(w, polls, lim);
      assert kinds[1..] == if reason.Some? then [] else Trace(next, polls[1..], lim);
      assert next.hold == HoldCount([kinds[0]], w.hold);
      assert reason.Some? ==> kinds == [kinds[0]];
      if reason.None? {
        HoldsAreCounted(next, polls[1..], lim);
      }
    }
  }

  /** The last turn that a reply has named. */
  function LastTurn(polls: seq<Poll>, before: Option<int>): Option<int>
    decreases |polls|
  {
    if polls == [] then before
    else
      var named := polls[0].harvest.Some? && polls[0].harvest.value.cursor.Some?;
      LastTurn(polls[1..], if named then polls[0].harvest.value.cursor else before)
  }

  lemma {:induction false} CursorIsLast(w: Waiting, polls: seq<Poll>, lim: Limits)
    ensures WaitRun(w, polls, lim).0.cursor == LastTurn(Seen(w, polls, lim), w.cursor)
    decreases |polls|
  {
    hide IdleStep, Terminal;
    if polls != [] {
      var (next, reason) := Turn(w, polls[0], lim);
      var seen := Seen(w, polls, lim);
      assert seen[1..] == if reason.Some? then [] else Seen(next, polls[1..], lim);
      if reason.None? {
        CursorIsLast(next, polls[1..], lim);
      }
    }
  }

  /** The poll on which the loop ended. */
  function LastPoll(w: Waiting, polls: seq<Poll>, lim: Limits): (r: Poll)
    requires WaitRun(w, polls, lim).1.Some?
    ensures r in polls
    decreases |polls|
  {
    var (next, reason) := Turn(w, polls[0], lim);
    if reason.Some? then polls[0] else LastPoll(next, polls[1..], lim)
  }

  lemma {:induction false} EndReason(w: Waiting, polls: seq<Poll>, lim: Limits)
    requires WaitRun(w, polls, lim).1.Some?
    ensures var (last, reason) := WaitRun(w, polls, lim);
      var poll := LastPoll(w, polls, lim);
      && (reason == Some(IdleEnd) ==>
            poll.harvest.Some? && !poll.harvest.value.stop && last.idle >= Required(poll.harvest.value.outcome, lim))
      && (reason == Some(HarvestStop) ==> poll.harvest.Some? && poll.harvest.value.stop)
      && (reason == Some(HarvestUnreachable) ==> last.miss >= 5 && (poll.harvest.Some? ==> Failing(poll.harvest.value.outcome)))
    decreases |polls|
  {
    hide Terminal, IdleStep;
    if polls[0].harvest.Some? {
      TerminalIff(w, polls[0], lim);
    }
    var (next, reason) := Turn(w, polls[0], lim);
    if reason.None? {
      EndReason(next, polls[1..], lim);
    }
  }

  /**
   * A wait reports "idle" only when the polls it saw end in a run without stream, cursor advance or hold that holds
   * the required number of answered polls; a failing outcome requires five.
   */
  lemma IdleNeedsARun(cursor: Option<int>, polls: seq<Poll>, lim: Limits)
    requires WaitRun(START.(cursor := cursor), polls, lim).1 == Some(IdleEnd)
    ensures var w := START.(cursor := cursor);
      var poll := LastPoll(w, polls, lim);
      poll.harvest.Some? && TailCount(Trace(w, polls, lim), 0) >= Required(poll.harvest.value.outcome, lim)
  {
    StreakIsTail(START.(cursor := cursor), polls, lim);
    EndReason(START.(cursor := cursor), polls, lim);
  }

  /* ---------- the loop ends ---------- */

  /** The reply neither streams nor advances the cursor. */
  predicate QuietPoll(w: Waiting, poll: Poll) {
    poll.harvest.Some? ==> !UnderWay(poll.harvest.value) && !MovesOn(w.cursor, poll.harvest.value)
  }

  function IdleMax(lim: Limits): nat {
    if lim.confirmations > 5 then lim.confirmations else 5
  }

  function Left(limit: int, used: nat): nat {
    if used < limit then limit - used else 0
  }

  function HoldLeft(w: Waiting, lim: Limits): nat { Left(lim.holdMax, w.hold) }
  function IdleLeft(w: Waiting, lim: Limits): nat { Left(IdleMax(lim), w.idle) }
  function MissLeft(w: Waiting): nat { Left(MISS_LIMIT, w.miss) }

  /** The counters of a wait that has not ended. */
  predicate Going(w: Waiting, lim: Limits) {
    w.idle < IdleMax(lim) && w.miss < MISS_LIMIT
  }

  /** On a quiet poll that does not end the wait, the budgets left decrease lexicographically. */
  lemma QuietDecreases(w: Waiting, poll: Poll, lim: Limits)
    requires Going(w, lim) && QuietPoll(w, poll) && Turn(w, poll, lim).1.None?
    ensures var v := Turn(w, poll, lim).0;
      && Going(v, lim)
      && (|| HoldLeft(v, lim) < HoldLeft(w, lim)
          || (HoldLeft(v, lim) == HoldLeft(w, lim) && IdleLeft(v, lim) < IdleLeft(w, lim))
          || (HoldLeft(v, lim) == HoldLeft(w, lim) && IdleLeft(v, lim) == IdleLeft(w, lim) && MissLeft(v) < MissLeft(w)))
  {
  }

  lemma GoingStays(w: Waiting, poll: Poll, lim: Limits)
    requires Going(w, lim) && Turn(w, poll, lim).1.None?
    ensures Going(Turn(w, poll, lim).0, lim)
  {
  }

  /** Quiet polls that can still pass before the wait ends. */
  function Bound(w: Waiting, lim: Limits): nat {
    HoldLeft(w, lim) * (6 * (IdleMax(lim) + 1)) + IdleLeft(w, lim) * 6 + MissLeft(w)
  }

  lemma BoundDrops(w: Waiting, v: Waiting, lim: Limits)
    requires Going(w, lim) && Going(v, lim)
    requires || HoldLeft(v, lim) < HoldLeft(w, lim)
             || (HoldLeft(v, lim) == HoldLeft(w, lim) && IdleLeft(v, lim) < IdleLeft(w, lim))
             || (HoldLeft(v, lim) == HoldLeft(w, lim) && IdleLeft(v, lim) == IdleLeft(w, lim) && MissLeft(v) < MissLeft(w))
    ensures Bound(v, lim) < Bound(w, lim)
  {
    var unit := 6 * (IdleMax(lim) + 1);
    assert IdleLeft(v, lim) <= IdleMax(lim) && MissLeft(v) <= 5;
    if HoldLeft(v, lim) < HoldLeft(w, lim) {
      TimesUnit(HoldLeft(v, lim), HoldLeft(w, lim), unit);
    }
  }

  lemma TimesUnit(a: nat, b: nat, unit: nat)
    requires a < b
    ensures a * unit + unit <= b * unit
  {
    assert (a + 1) * unit <= b * unit;
  }

  /** Every poll of the run is quiet where the run meets it. */
  predicate AllQuiet(w: Waiting, polls: seq<Poll>, lim: Limits)
    decreases |polls|
  {
    polls == [] || (QuietPoll(w, polls[0]) && (Turn(w, polls[0], lim).1.None? ==> AllQuiet(Turn(w, polls[0], lim).0, polls[1..], lim)))
  }

  /** As soon as the replies neither stream nor advance the cursor, the wait ends within a fixed number of polls. */
  lemma {:induction false} QuietWaitEnds(w: Waiting, polls: seq<Poll>, lim: Limits)
    requires Going(w, lim) && AllQuiet(w, polls, lim) && |polls| >= Bound(w, lim)
    ensures WaitRun(w, polls, lim).1.Some?
    decreases |polls|
  {
    hide Turn, QuietPoll;
    assert Bound(w, lim) > 0;
    var (next, reason) := Turn(w, polls[0], lim);
    if reason.None? {
      QuietDecreases(w, polls[0], lim);
      BoundDrops(w, next, lim);
      QuietWaitEnds(next, polls[1..], lim);
    }
  }

  /** So wherever a run stands, a stretch of 6 * (holds + 1) * (idle limit + 1) quiet polls ends it. */
  lemma QuietStretchEnds(cursor: Option<int>, before: seq<Poll>, quiet: seq<Poll>, lim: Limits)
    requires var r := WaitRun(START.(cursor := cursor), before, lim); r.1.None? && AllQuiet(r.0, quiet, lim)
    requires |quiet| >= (Left(lim.holdMax, 0) + 1) * (6 * (IdleMax(lim) + 1))
    ensures WaitRun(START.(cursor := cursor), before + quiet, lim).1.Some?
  {
    hide Turn, AllQuiet;
    var w := START.(cursor := cursor);
    RunGoes(w, before, lim);
    var v := WaitRun(w, before, lim).0;
    BoundAtMost(v, lim);
    QuietWaitEnds(v, quiet, lim);
    RunSplits(w, before, quiet, lim);
  }

  lemma BoundAtMost(w: Waiting, lim: Limits)
    ensures Bound(w, lim) < (Left(lim.holdMax, 0) + 1) * (6 * (IdleMax(lim) + 1))
  {
    var unit := 6 * (IdleMax(lim) + 1);
    assert IdleLeft(w, lim) * 6 + MissLeft(w) < unit;
    TimesUnit(HoldLeft(w, lim), Left(lim.holdMax, 0) + 1, unit);
  }

  lemma {:induction false} RunGoes(w: Waiting, polls: seq<Poll>, lim: Limits)
    requires Going(w, lim) && WaitRun(w, polls, lim).1.None?
    ensures Going(WaitRun(w, polls, lim).0, lim)
    decreases |polls|
  {
    hide Turn, Going;
    if polls != [] {
      GoingStays(w, polls[0], lim);
      RunGoes(Turn(w, polls[0], lim).0, polls[1..], lim);
    }
  }

  lemma {:induction false} RunSplits(w: Waiting, a: seq<Poll>, b: seq<Poll>, lim: Limits)
    requires WaitRun(w, a, lim).1.None?
    ensures WaitRun(w, a + b, lim) == WaitRun(WaitRun(w, a, lim).0, b, lim)
    decreases |a|
  {
    hide Turn;
    if a == [] {
      assert a + b == b;
    } else {
      assert (a + b)[1..] == a[1..] + b && (a + b)[0] == a[0];
      RunSplits(Turn(w, a[0], lim).0, a[1..], b, lim);
    }
  }

  /* ---------- when a wait is reported as unreachable ---------- */

  /** Unanswered, or answered by a failure. */
  predicate Fails(poll: Poll) {
    poll.harvest.None? || Failing(poll.harvest.value.outcome)
  }

  /** The polls the loop has looked at. */
  function Seen(w: Waiting, polls: seq<Poll>, lim: Limits): (r: seq<Poll>)
    ensures r <= polls && (r == [] <==> polls == [])
    decreases |polls|
  {
    if polls == [] then []
    else
      var (next, reason) := Turn(w, polls[0], lim);
      [polls[0]] + if reason.Some? then [] else Seen(next, polls[1..], lim)
  }

  /** Failed polls in a row at the end, an unanswered one after any answer counting on. */
  function MissTail(polls: seq<Poll>, before: nat): nat
    decreases |polls|
  {
    if polls == [] then before else MissTail(polls[1..], if Fails(polls[0]) then before + 1 else 0)
  }

  lemma {:induction false} MissIsTail(w: Waiting, polls: seq<Poll>, lim: Limits)
    ensures WaitRun(w, polls, lim).0.miss == MissTail(Seen(w, polls, lim), w.miss)
    decreases |polls|
  {
    hide IdleStep, Terminal;
    if polls != [] {
      var (next, reason) := Turn(w, polls[0], lim);
      var seen := Seen(w, polls, lim);
      assert seen[1..] == if reason.Some? then [] else Seen(next, polls[1..], lim);
      if reason.None? {
        MissIsTail(next, polls[1..], lim);
      }
    }
  }

  /** One turn ends the wait as unreachable exactly on the fifth failure in a row, unless the idle streak ends it first. */
  lemma TurnUnreachableIff(w: Waiting, poll: Poll, lim: Limits)
    ensures Turn(w, poll, lim).1 == Some(HarvestUnreachable) <==>
      Fails(poll) && w.miss + 1 >= MISS_LIMIT && (poll.harvest.None? || Turn(w, poll, lim).0.idle < 5)
  {
  }

  lemma {:induction false} RunUnreachableIff(w: Waiting, polls: seq<Poll>, lim: Limits)
    requires Going(w, lim)
    ensures var (last, reason) := WaitRun(w, polls, lim);
      var seen := Seen(w, polls, lim);
      reason == Some(HarvestUnreachable) <==>
        polls != [] && last.miss >= MISS_LIMIT && (seen[|seen| - 1].harvest.None? || last.idle < 5)
    decreases |polls|
  {
    hide Turn, Going;
    if polls != [] {
      var (next, reason) := Turn(w, polls[0], lim);
      TurnUnreachableIff(w, polls[0], lim);
      TurnMisses(w, polls[0], lim);
      if reason.None? {
        GoingStays(w, polls[0], lim);
        RunUnreachableIff(next, polls[1..], lim);
        if polls[1..] != [] {
          var seen, more := Seen(w, polls, lim), Seen(next, polls[1..], lim);
          assert seen[|seen| - 1] == more[|more| - 1];
        } else {
          StillGoing(next, lim);
        }
      }
    }
  }

  lemma StillGoing(w: Waiting, lim: Limits)
    requires Going(w, lim)
    ensures w.miss < MISS_LIMIT
  {
  }

  lemma TurnMisses(w: Waiting, poll: Poll, lim: Limits)
    ensures Turn(w, poll, lim).0.miss == if Fails(poll) then w.miss + 1 else 0
  {
    hide IdleStep, Terminal;
  }

  /**
   * A wait is reported as unreachable exactly when the polls it saw end in five failures in a row and the last of
   * them is unanswered, or fewer than five polls count as idle since the last stream, cursor advance or hold.
   */
  lemma UnreachableIff(cursor: Option<int>, polls: seq<Poll>, lim: Limits)
    ensures var w := START.(cursor := cursor);
      var seen := Seen(w, polls, lim);
      WaitRun(w, polls, lim).1 == Some(HarvestUnreachable) <==>
        && seen != [] && MissTail(seen, 0) >= 5
        && (seen[|seen| - 1].harvest.None? || TailCount(Trace(w, polls, lim), 0) < 5)
  {
    hide Turn, WaitRun;
    var w := START.(cursor := cursor);
    RunUnreachableIff(w, polls, lim);
    MissIsTail(w, polls, lim);
    StreakIsTail(w, polls, lim);
  }

  /** A wait that only meets failures looks at five of them. */
  lemma {:induction false} FailuresSeen(w: Waiting, polls: seq<Poll>, lim: Limits)
    requires w.idle <= w.miss && w.miss + |polls| == MISS_LIMIT && forall i :: 0 <= i < |polls| ==> Fails(polls[i])
    ensures Seen(w, polls, lim) == polls && MissTail(polls, w.miss) == MISS_LIMIT
    decreases |polls|
  {
    if polls != [] {
      var (next, reason) := Turn(w, polls[0], lim);
      if |polls| > 1 {
        assert reason.None? && next.idle <= next.miss;
        FailuresSeen(next, polls[1..], lim);
      } else {
        assert polls[1..] == [];
      }
      assert [polls[0]] + polls[1..] == polls;
    }
  }

  /**
   * Five failures from the start are reported as unreachable exactly when the last is unanswered, or some poll among
   * them is unanswered, streams, advances the cursor, or is held by a lane row: five counted failures end as "idle"
   * or as a stop.
   */
  lemma FiveFailures(cursor: Option<int>, polls: seq<Poll>, lim: Limits)
    requires |polls| == 5 && forall i :: 0 <= i < 5 ==> Fails(polls[i])
    ensures var w := START.(cursor := cursor);
      var reason := WaitRun(w, polls, lim).1;
      && reason.Some?
      && (reason == Some(HarvestUnreachable) <==> polls[4].harvest.None? || TailCount(Trace(w, polls, lim), 0) < 5)
      && (reason != Some(HarvestUnreachable) ==> reason == Some(if polls[4].harvest.value.stop then HarvestStop else IdleEnd))
  {
    hide Turn, TailCount;
    var w := START.(cursor := cursor);
    FailuresSeen(w, polls, lim);
    UnreachableIff(cursor, polls, lim);
    MissIsTail(w, polls, lim);
    RunGoesOrEnds(w, polls, lim);
    if WaitRun(w, polls, lim).1.Some? {
      EndReason(w, polls, lim);
      LastIsSeen(w, polls, lim);
      assert LastPoll(w, polls, lim) == polls[4];
      assert WaitRun(w, polls, lim).1.value.IdleEnd? || WaitRun(w, polls, lim).1.value.HarvestStop?
          || WaitRun(w, polls, lim).1.value.HarvestUnreachable?;
    }
  }

  lemma RunGoesOrEnds(w: Waiting, polls: seq<Poll>, lim: Limits)
    requires Going(w, lim)
    ensures WaitRun(w, polls, lim).1.None? ==> WaitRun(w, polls, lim).0.miss < MISS_LIMIT
  {
    hide WaitRun;
    if WaitRun(w, polls, lim).1.None? { RunGoes(w, polls, lim); }
  }

  lemma {:induction false} LastIsSeen(w: Waiting, polls: seq<Poll>, lim: Limits)
    requires WaitRun(w, polls, lim).1.Some?
    ensures var seen := Seen(w, polls, lim); LastPoll(w, polls, lim) == seen[|seen| - 1]
    decreases |polls|
  {
    hide Turn;
    var (next, reason) := Turn(w, polls[0], lim);
    if reason.None? {
      LastIsSeen(next, polls[1..], lim);
    }
  }

  /** Five failing harvests in a row on an empty lane are reported as "idle", not as an unreachable harvest. */
  lemma FailingHarvestsLookIdle(h: Harvest, lim: Limits)
    requires Failing(h.outcome) && !h.streaming && !h.stop && !h.toolPause && h.cursor.None?
    ensures var p := Poll(Some(h), false); WaitRun(START, [p, p, p, p, p], lim).1 == Some(IdleEnd)
  {
    var p := Poll(Some(h), false);
    var w1, w2, w3, w4 := Waiting(1, 0, 1, None), Waiting(2, 0, 2, None), Waiting(3, 0, 3, None), Waiting(4, 0, 4, None);
    assert WaitRun(w4, [p], lim).1 == Some(IdleEnd);
    assert [p, p][1..] == [p] && [p, p, p][1..] == [p, p] && [p, p, p, p][1..] == [p, p, p] && [p, p, p, p, p][1..] == [p, p, p, p];
    assert WaitRun(w3, [p, p], lim).1 == Some(IdleEnd);
    assert WaitRun(w2, [p, p, p], lim).1 == Some(IdleEnd);
    assert WaitRun(w1, [p, p, p, p], lim).1 == Some(IdleEnd);
  }
}
