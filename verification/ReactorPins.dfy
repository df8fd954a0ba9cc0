/** What one cycle counts, queues and reports, in terms of the state it meets and the replies. */
module ReactorPins {
  import opened Text
  import opened WaitLoop
  import opened Reactor
  import opened ReactorRuns
  import opened ReactorRestart

  /* ---------- episodes and harvests ---------- */

  /** A prompt was dispatched in this cycle. */
  predicate Dispatches(s: State, w: World) {
    w.fired && !(s.harvestSeq == 0 && w.seated)
  }

  /** The cursor the wait starts from. */
  function CursorAtLaunch(s: State, w: World): Option<int> {
    if !(s.harvestSeq == 0 && w.seated) && !w.fired && w.gateReading.Some? && w.gateReading.value.harvest.cursor.Some?
    then w.gateReading.value.harvest.cursor else s.cursor
  }

  /** How the wait for the stream's end goes, and the cursor after it. */
  function WaitOf(s: State, w: World): (Waiting, Option<Reason>) {
    WaitRun(Waiting(0, 0, 0, CursorAtLaunch(s, w)), w.polls, w.limits)
  }

  /** The cycle reads a harvest after a wait that ended, and not as unreachable. */
  predicate ReadsHarvest(s: State, w: World) {
    w.last.Some? && (WaitOf(s, w).1 == Some(IdleEnd) || WaitOf(s, w).1 == Some(HarvestStop))
  }

  predicate WholeHarvest(w: World) {
    w.last.Some? && w.last.value.harvest.outcome == Harvested && w.last.value.harvest.turns >= 1
  }

  /** The cursor after the last reading is past the one the cycle began with. */
  predicate Progressed(s: State, w: World) {
    var now := if w.last.Some? && w.last.value.harvest.cursor.Some? then w.last.value.harvest.cursor else WaitOf(s, w).0.cursor;
    now.Some? && (s.cursor == None || s.cursor.value < now.value)
  }

  lemma LaunchMeans(s: State, w: World)
    ensures var (t, dispatched, gaveUp) := Launch(s, w);
      && t.cursor == CursorAtLaunch(s, w) && (dispatched <==> Dispatches(s, w)) && (gaveUp.Some? <==> LaunchFails(s, w))
      && t.episode == s.episode && t.harvestSeq == s.harvestSeq && t.pending == s.pending && QueueCurrent(s, t)
      && (gaveUp.Some? ==> gaveUp == Some(if !w.fired && s.harvestSeq > 0 then SuccessorDispatchFail else DispatchFail))
  {
  }

  lemma CollectMeans(s: State, r: Reading, baseline: Option<int>, dispatched: bool, night: bool)
    ensures var (t, outcome) := CollectReading(s, r, baseline, dispatched, night);
      var now := if r.harvest.cursor.Some? then r.harvest.cursor else s.cursor;
      var progressed := now.Some? && (baseline == None || baseline.value < now.value);
      var whole := r.harvest.outcome == Harvested && r.harvest.turns >= 1;
      && (outcome == NoCursorAdvance <==> whole && !dispatched && !progressed)
      && (outcome != NoCursorAdvance ==> outcome == Continue)
      && t.harvestSeq == s.harvestSeq + (if whole && (dispatched || progressed) then 1 else 0)
      && t.episode == s.episode - (if outcome == NoCursorAdvance then 1 else 0)
      && t.cursor == now
  {
    hide EnqueueAll;
    var x := ApplyIds(s, r);
    EnqueueCounts(x, r.signals);
    EnqueueCounts(Numbering(x), r.signals);
  }

  /**
   * One cycle, exactly: the episode counts up once the prompt is placed, and back down when a whole harvest shows no
   * progress and nothing was dispatched; a harvest is numbered exactly when the wait ended, the reading after it is
   * whole, and a prompt was dispatched or the cursor advanced.
   */
  lemma CycleCounts(s: State, w: World, night: bool, maxEpisodes: int)
    requires |w.answers| == |s.pending|
    ensures var t := Cycle(s, w, night, maxEpisodes).0;
      var placed := !Holds(s, w, night, maxEpisodes) && !LaunchFails(s, w);
      var judged := placed && ReadsHarvest(s, w) && WholeHarvest(w);
      var good := Dispatches(s, w) || Progressed(s, w);
      && t.harvestSeq == s.harvestSeq + (if judged && good then 1 else 0)
      && t.episode == s.episode + (if placed && !(judged && !good) then 1 else 0)
  {
    hide Drain, Launch, CollectReading, WaitRun, LaunchFails;
    if !Holds(s, w, night, maxEpisodes) {
      var drained := if night then Drain(s, w.answers) else s;
      if night {
        DrainCounts(s, w.answers);
        DrainChat(s, w.answers);
      }
      LaunchReads(s, drained, w);
      LaunchMeans(drained, w);
      var (t, dispatched, gaveUp) := Launch(drained, w);
      if gaveUp.None? && w.last.Some? {
        var (v, reason) := Waited(t.(episode := t.episode + 1), w);
        CollectMeans(v, w.last.value, s.cursor, dispatched, night);
      }
    }
  }

  lemma LaunchReads(s: State, t: State, w: World)
    requires s.harvestSeq == t.harvestSeq && s.hasChat == t.hasChat && s.cursor == t.cursor
    ensures LaunchFails(s, w) == LaunchFails(t, w) && Dispatches(s, w) == Dispatches(t, w) && CursorAtLaunch(s, w) == CursorAtLaunch(t, w)
  {
  }

  /** What a cycle reports, branch by branch. */
  lemma CycleReports(s: State, w: World, night: bool, maxEpisodes: int)
    requires |w.answers| == |s.pending|
    ensures var outcome := Cycle(s, w, night, maxEpisodes).1;
      var placed := !Holds(s, w, night, maxEpisodes) && !LaunchFails(s, w);
      && (outcome == HoldMode <==> !night && s.episode >= 1)
      && (outcome == Deadline <==> !(!night && s.episode >= 1) && (w.late || s.episode >= maxEpisodes) && w.lateAgain)
      && (outcome == EpisodeBudget <==> !(!night && s.episode >= 1) && (w.late || s.episode >= maxEpisodes) && !w.lateAgain)
      && (outcome == SuccessorDispatchFail <==> !Holds(s, w, night, maxEpisodes) && LaunchFails(s, w) && !w.fired && s.harvestSeq > 0)
      && (outcome == DispatchFail <==> !Holds(s, w, night, maxEpisodes) && LaunchFails(s, w) && (w.fired || s.harvestSeq == 0))
      && (outcome == StillWaiting <==> placed && WaitOf(s, w).1 == None)
      && (outcome == NoHarvest <==> placed && WaitOf(s, w).1 == Some(HarvestUnreachable))
      && (outcome == NoCursorAdvance <==>
            placed && ReadsHarvest(s, w) && WholeHarvest(w) && !Dispatches(s, w) && !Progressed(s, w))
  {
    hide Drain, Launch, CollectReading, WaitRun, LaunchFails;
    if !Holds(s, w, night, maxEpisodes) {
      var drained := if night then Drain(s, w.answers) else s;
      if night {
        DrainCounts(s, w.answers);
        DrainChat(s, w.answers);
      }
      LaunchReads(s, drained, w);
      LaunchMeans(drained, w);
      var (t, dispatched, gaveUp) := Launch(drained, w);
      if gaveUp.None? && w.last.Some? {
        var (v, reason) := Waited(t.(episode := t.episode + 1), w);
        CollectMeans(v, w.last.value, s.cursor, dispatched, night);
      }
    }
  }

  /* ---------- the queue ---------- */

  lemma EnqueueOne(s: State, item: Task, x: Task)
    ensures var t := Enqueue(s, item);
      && s.pending <= t.pending && SameBudgets(s, t)
      && (x in t.pending <==> x in s.pending || (x == item && BudgetOf(s, item.todo).count < BudgetOf(s, item.todo).max))
      && (Distinct(s.pending) ==> Distinct(t.pending))
  {
  }

  /**
   * Queueing signals adds behind the waiting tasks exactly those whose todo has budget left, none of them twice.
   */
  lemma {:induction false} SignalsQueued(s: State, items: seq<Task>, x: Task)
    ensures var t := EnqueueAll(s, items);
      && s.pending <= t.pending && SameBudgets(s, t)
      && (x in t.pending <==> x in s.pending || (x in items && BudgetOf(s, x.todo).count < BudgetOf(s, x.todo).max))
      && (Distinct(s.pending) ==> Distinct(t.pending))
    decreases |items|
  {
    hide Enqueue, Distinct;
    if items != [] {
      EnqueueOne(s, items[0], x);
      SignalsQueued(Enqueue(s, items[0]), items[1..], x);
      assert items == [items[0]] + items[1..];
    }
  }

  /** A harvest that is not rejected queues its signals, by night. */
  lemma HarvestQueues(s: State, r: Reading, baseline: Option<int>, dispatched: bool, night: bool, x: Task)
    requires CollectReading(s, r, baseline, dispatched, night).1 == Continue
    ensures var t := CollectReading(s, r, baseline, dispatched, night).0;
      x in t.pending <==> x in s.pending || (night && x in r.signals && BudgetOf(s, x.todo).count < BudgetOf(s, x.todo).max)
  {
    hide EnqueueAll, CursorAdvanced;
    var u := ApplyIds(s, r);
    SignalsQueued(u, r.signals, x);
    SignalsQueued(Numbering(u), r.signals, x);
  }

  /** One task more fired is one run more of its own budget, and of no other. */
  lemma FiringCounts(s: State, item: Task, other: Todo)
    requires BudgetOf(s, item.todo).count < BudgetOf(s, item.todo).max
    ensures var t := DrainOne(s, item, true);
      && BudgetOf(t, item.todo) == Budget(BudgetOf(s, item.todo).count + 1, BudgetOf(s, item.todo).max)
      && (other != item.todo ==> BudgetOf(t, other) == BudgetOf(s, other))
  {
  }

  /** The two budgets are kept apart. */
  lemma BudgetsApart(s: State, b: Budget)
    ensures BudgetOf(s, Orientation) == s.orientation && BudgetOf(s, Flattening) == s.flattening
    ensures WithBudget(s, Orientation, b) == s.(orientation := b) && WithBudget(s, Flattening, b) == s.(flattening := b)
  {
  }
}
