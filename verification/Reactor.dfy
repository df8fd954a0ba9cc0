/** The night reactor: episodes, harvest numbers and the composer queue, with every reply an arbitrary input. */
module Reactor {
  import opened Text
  import opened WaitLoop

  datatype Todo = Orientation | Flattening

  datatype Task = Task(todo: Todo, text: string)

  datatype Budget = Budget(count: nat, max: int)

  /**
   * What the reactor remembers. `harvests` (numbers written to the harvest directory) and the three task lists
   * are the record of what it did.
   */
  datatype State = State(
    episode: int, harvestSeq: nat, hasChat: bool, cursor: Option<int>,
    orientation: Budget, flattening: Budget, pending: seq<Task>, record: Record)

  datatype Record = Record(harvests: seq<nat>, queued: seq<Task>, fired: seq<Task>, dropped: seq<Task>)

  function BudgetOf(s: State, todo: Todo): Budget {
    match todo case Orientation => s.orientation case Flattening => s.flattening
  }

  function WithBudget(s: State, todo: Todo, b: Budget): State {
    match todo case Orientation => s.(orientation := b) case Flattening => s.(flattening := b)
  }

  predicate Spent(s: State, todo: Todo) {
    BudgetOf(s, todo).count >= BudgetOf(s, todo).max
  }

  /* ---------- the composer queue ---------- */

  /** One queued item; `answered` says whether firing it would yield an execution id. */
  function DrainOne(s: State, item: Task, answered: bool): State {
    var b := BudgetOf(s, item.todo);
    if b.count >= b.max then s.(record := s.record.(dropped := s.record.dropped + [item]))
    else if !answered then s.(pending := s.pending + [item])
    else WithBudget(s, item.todo, b.(count := b.count + 1)).(record := s.record.(fired := s.record.fired + [item]))
  }

  function DrainAll(s: State, items: seq<Task>, answers: seq<bool>): State
    requires |answers| == |items|
    decreases |items|
  {
    if items == [] then s else DrainAll(DrainOne(s, items[0], answers[0]), items[1..], answers[1..])
  }

  function Drain(s: State, answers: seq<bool>): State
    requires |answers| == |s.pending|
  {
    DrainAll(s.(pending := []), s.pending, answers)
  }

  function Enqueue(s: State, item: Task): State {
    if Spent(s, item.todo) || item in s.pending then s
    else s.(pending := s.pending + [item], record := s.record.(queued := s.record.queued + [item]))
  }

  function EnqueueAll(s: State, items: seq<Task>): State
    decreases |items|
  {
    if items == [] then s else EnqueueAll(Enqueue(s, items[0]), items[1..])
  }

  /* ---------- one cycle ---------- */

  datatype Outcome =
    | HoldMode | Deadline | EpisodeBudget | SuccessorDispatchFail | DispatchFail | NoHarvest | NoCursorAdvance
    | StillWaiting
    | Continue

  /** A harvest as the cycle reads it: with its chat URL, if any, and the composer signals in its turns. */
  datatype Reading = Reading(harvest: Harvest, hasUrl: bool, signals: seq<Task>)

  /** Everything the outside world answers during one cycle. */
  datatype World = World(
    late: bool, lateAgain: bool, answers: seq<bool>, seated: bool, fired: bool, gateReading: Option<Reading>,
    retrySeated: bool, attached: bool, polls: seq<Poll>, limits: Limits, waitChat: bool, last: Option<Reading>)

  function ApplyIds(s: State, r: Reading): State {
    s.(hasChat := s.hasChat || r.hasUrl, cursor := if r.harvest.cursor.Some? then r.harvest.cursor else s.cursor)
  }

  /** Until a lane is attached: the state, whether a prompt was dispatched, and the outcome if the cycle gives up. */
  function Launch(s: State, w: World): (State, bool, Option<Outcome>) {
    if s.harvestSeq == 0 && w.seated then (s, false, None)
    else if !w.fired then
      var t := if w.gateReading.Some? then ApplyIds(s, w.gateReading.value) else s;
      if t.harvestSeq > 0 then (t, false, Some(SuccessorDispatchFail))
      else if t.hasChat || w.retrySeated then (t, false, None)
      else (t, false, Some(DispatchFail))
    else if w.attached || s.hasChat then (s, true, None)
    else (s, true, Some(DispatchFail))
  }

  /** The wait for the stream's end may change the cursor and learn a chat URL; no reason while it goes on. */
  function Waited(s: State, w: World): (State, Option<Reason>) {
    var (last, reason) := WaitRun(START.(cursor := s.cursor), w.polls, w.limits);
    (s.(hasChat := s.hasChat || w.waitChat, cursor := last.cursor), reason)
  }

  /** The harvest after the wait: rejected, or numbered and its signals queued. */
  function CollectReading(s: State, r: Reading, baseline: Option<int>, dispatched: bool, night: bool): (State, Outcome) {
    var t := ApplyIds(s, r);
    var whole := r.harvest.outcome.Harvested? && r.harvest.turns >= 1;
    if whole && !CursorAdvanced(baseline, t.cursor) && !dispatched then (t.(episode := t.episode - 1), NoCursorAdvance)
    else
      var u := if whole then Numbering(t) else t;
      (if night then EnqueueAll(u, r.signals) else u, Continue)
  }

  /** One more harvest file. */
  function Numbering(s: State): State {
    s.(harvestSeq := s.harvestSeq + 1, record := s.record.(harvests := s.record.harvests + [s.harvestSeq + 1]))
  }

  function Collect(s: State, reason: Option<Reason>, w: World, baseline: Option<int>, dispatched: bool, night: bool): (State, Outcome) {
    if reason.None? then (s, StillWaiting)
    else if reason.value.HarvestUnreachable? then (s, NoHarvest)
    else if w.last.None? then (s, Continue)
    else CollectReading(s, w.last.value, baseline, dispatched, night)
  }

  function Cycle(s: State, w: World, night: bool, maxEpisodes: int): (State, Outcome)
    requires |w.answers| == |s.pending|
  {
    if !night && s.episode >= 1 then (s, HoldMode)
    else if w.late || s.episode >= maxEpisodes then (s, if w.lateAgain then Deadline else EpisodeBudget)
    else
      var drained := if night then Drain(s, w.answers) else s;
      var (t, dispatched, gaveUp) := Launch(drained, w);
      if gaveUp.Some? then (t, gaveUp.value)
      else
        var (v, reason) := Waited(t.(episode := t.episode + 1), w);
        Collect(v, reason, w, s.cursor, dispatched, night)
  }

  /** The reactor process; its methods change its fields as the replies come in. */
  class ReactorState {
    var s: State

    constructor (start: State)
      ensures s == start
    {
      s := start;
    }

    method DrainComposerQueue(answers: seq<bool>)
      requires |answers| == |s.pending|
      modifies this
      ensures s == Drain(old(s), answers)
    {
      var items := s.pending;
      var remaining: seq<Task> := [];
      ghost var g := s.(pending := []);
      for i := 0 to |items|
        invariant s == g.(pending := items) && remaining == g.pending
        invariant DrainAll(g, items[i..], answers[i..]) == DrainAll(old(s).(pending := []), items, answers)
      {
        assert items[i..][0] == items[i] && items[i..][1..] == items[i + 1..];
        assert answers[i..][0] == answers[i] && answers[i..][1..] == answers[i + 1..];
        var item := items[i];
        var b := BudgetOf(s, item.todo);
        g := DrainOne(g, item, answers[i]);
        if b.count >= b.max {
          s := s.(record := s.record.(dropped := s.record.dropped + [item]));
        } else if !answers[i] {
          remaining := remaining + [item];
        } else {
          s := WithBudget(s, item.todo, b.(count := b.count + 1)).(record := s.record.(fired := s.record.fired + [item]));
        }
      }
      s := s.(pending := remaining);
    }

    /** Dispatches the prompt or takes over a lane. */
    method LaunchEpisode(w: World) returns (dispatched: bool, gaveUp: Option<Outcome>)
      modifies this
      ensures (s, dispatched, gaveUp) == Launch(old(s), w)
    {
      dispatched, gaveUp := false, None;
      if s.harvestSeq == 0 && w.seated {
        return;
      }
      if w.fired {
        dispatched := true;
        if !w.attached && !s.hasChat {
          gaveUp := Some(DispatchFail);
        }
        return;
      }
      if w.gateReading.Some? {
        s := ApplyIds(s, w.gateReading.value);
      }
      if s.harvestSeq > 0 {
        gaveUp := Some(SuccessorDispatchFail);
      } else if !s.hasChat && !w.retrySeated {
        gaveUp := Some(DispatchFail);
      }
    }

    method EnqueueSignals(signals: seq<Task>)
      modifies this
      ensures s == EnqueueAll(old(s), signals)
    {
      for i := 0 to |signals|
        invariant EnqueueAll(s, signals[i..]) == EnqueueAll(old(s), signals)
      {
        assert signals[i..][0] == signals[i] && signals[i..][1..] == signals[i + 1..];
        var item := signals[i];
        if BudgetOf(s, item.todo).count < BudgetOf(s, item.todo).max {
          if item !in s.pending {
            s := s.(pending := s.pending + [item], record := s.record.(queued := s.record.queued + [item]));
          }
        }
      }
    }

    method CollectHarvest(r: Reading, baseline: Option<int>, dispatched: bool, night: bool) returns (outcome: Outcome)
      modifies this
      ensures (s, outcome) == CollectReading(old(s), r, baseline, dispatched, night)
    {
      s := ApplyIds(s, r);
      if r.harvest.outcome.Harvested? && r.harvest.turns >= 1 {
        if !CursorAdvanced(baseline, s.cursor) && !dispatched {
          s := s.(episode := s.episode - 1);
          return NoCursorAdvance;
        }
        s := s.(harvestSeq := s.harvestSeq + 1);
        s := s.(record := s.record.(harvests := s.record.harvests + [s.harvestSeq]));
      }
      if night {
        EnqueueSignals(r.signals);
      }
      outcome := Continue;
    }

    method RunCycle(w: World, night: bool, maxEpisodes: int) returns (outcome: Outcome)
      requires |w.answers| == |s.pending|
      modifies this
      ensures (s, outcome) == Cycle(old(s), w, night, maxEpisodes)
    {
      hide Drain, Launch, CollectReading, WaitRun;
      if !night && s.episode >= 1 {
        return HoldMode;
      }
      if w.late || s.episode >= maxEpisodes {
        return if w.lateAgain then Deadline else EpisodeBudget;
      }
      var baseline := s.cursor;
      if night {
        DrainComposerQueue(w.answers);
      }
      var dispatched, gaveUp := LaunchEpisode(w);
      if gaveUp.Some? {
        return gaveUp.value;
      }
      s := s.(episode := s.episode + 1);
      var reason, cursor := WaitForStreamEnd(w.polls, w.limits, s.cursor);
      s := s.(hasChat := s.hasChat || w.waitChat, cursor := cursor);
      if reason.None? {
        return StillWaiting;
      }
      if reason.value.HarvestUnreachable? {
        return NoHarvest;
      }
      if w.last.None? {
        return Continue;
      }
      outcome := CollectHarvest(w.last.value, baseline, dispatched, night);
    }
  }
}
