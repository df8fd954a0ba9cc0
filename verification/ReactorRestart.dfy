/** What the reactor's state file holds after a cycle, and what a restart from it repeats. */
module ReactorRestart {
  import opened Text
  import opened WaitLoop
  import opened Reactor
  import opened ReactorRuns

  /** The file after one cycle: written once a lane is attached, and again after a harvest. */
  function Saved(file: State, s: State, w: World, night: bool, maxEpisodes: int): State
    requires |w.answers| == |s.pending|
  {
    if (!night && s.episode >= 1) || w.late || s.episode >= maxEpisodes then file
    else
      var (t, dispatched, gaveUp) := Launch(if night then Drain(s, w.answers) else s, w);
      if gaveUp.Some? then file
      else
        var attached := t.(episode := t.episode + 1);
        var (v, reason) := Waited(attached, w);
        if reason.None? || reason.value.HarvestUnreachable? || w.last.None? then attached
        else CollectReading(v, w.last.value, s.cursor, dispatched, night).0
  }

  /** Same waiting tasks and budgets. */
  predicate QueueCurrent(file: State, s: State) {
    file.pending == s.pending && file.orientation == s.orientation && file.flattening == s.flattening
  }

  /* ---------- conditions on the state before the cycle and the replies ---------- */

  /** No queued task is answered, and none is out of budget. */
  predicate NothingMoves(s: State, answers: seq<bool>)
    requires |answers| == |s.pending|
  {
    forall i :: 0 <= i < |s.pending| ==> !answers[i] && !Spent(s, s.pending[i].todo)
  }

  /** The prompt cannot be placed: no lane is adopted, and none comes of the dispatch. */
  predicate LaunchFails(s: State, w: World) {
    && !(s.harvestSeq == 0 && w.seated)
    && if w.fired then !w.attached && !s.hasChat
       else s.harvestSeq > 0 || (!s.hasChat && !(w.gateReading.Some? && w.gateReading.value.hasUrl) && !w.retrySeated)
  }

  /** The cycle returns at once. */
  predicate Holds(s: State, w: World, night: bool, maxEpisodes: int) {
    (!night && s.episode >= 1) || w.late || s.episode >= maxEpisodes
  }

  lemma LaunchFailsIff(s: State, w: World)
    ensures Launch(s, w).2.Some? <==> LaunchFails(s, w)
  {
  }

  lemma SpentReads(a: State, b: State, todo: Todo)
    requires a.orientation == b.orientation && a.flattening == b.flattening
    ensures Spent(a, todo) == Spent(b, todo)
  {
  }

  /** Draining `items` keeps at most all of them waiting, and all exactly when nothing moves. */
  lemma {:induction false} DrainKeepsAllIff(s: State, items: seq<Task>, answers: seq<bool>)
    requires |answers| == |items|
    ensures var t := DrainAll(s, items, answers);
      && |t.pending| <= |s.pending| + |items|
      && (|t.pending| == |s.pending| + |items| <==> forall i :: 0 <= i < |items| ==> !answers[i] && !Spent(s, items[i].todo))
      && (|t.pending| == |s.pending| + |items| ==>
            t.pending == s.pending + items && t.orientation == s.orientation && t.flattening == s.flattening)
    decreases |items|
  {
    hide Spent;
    if items != [] {
      var next := DrainOne(s, items[0], answers[0]);
      DrainKeepsAllIff(next, items[1..], answers[1..]);
      OneKept(s, items[0], answers[0]);
      if !answers[0] && !Spent(s, items[0].todo) {
        assert [items[0]] + items[1..] == items;
        forall i | 1 <= i < |items| ensures Spent(next, items[i].todo) == Spent(s, items[i].todo) && items[i] == items[1..][i - 1] {
          SpentReads(next, s, items[i].todo);
        }
      }
    }
  }

  lemma OneKept(s: State, item: Task, answered: bool)
    ensures var t := DrainOne(s, item, answered);
      if !answered && !Spent(s, item.todo)
      then t.pending == s.pending + [item] && t.orientation == s.orientation && t.flattening == s.flattening
      else t.pending == s.pending
  {
  }

  lemma DrainCurrentIff(s: State, answers: seq<bool>)
    requires |answers| == |s.pending|
    ensures QueueCurrent(s, Drain(s, answers)) <==> NothingMoves(s, answers)
  {
    hide DrainAll, Spent;
    var e := s.(pending := []);
    DrainKeepsAllIff(e, s.pending, answers);
    forall i | 0 <= i < |s.pending| ensures Spent(e, s.pending[i].todo) == Spent(s, s.pending[i].todo) {
      SpentReads(e, s, s.pending[i].todo);
    }
    assert [] + s.pending == s.pending;
  }

  /**
   * After a cycle that starts with a current file, the file's queue is current exactly when the cycle returned at
   * once, or did not drain (by day, or nothing to move), or placed its prompt.
   */
  lemma FileCurrentIff(s: State, w: World, night: bool, maxEpisodes: int)
    requires |w.answers| == |s.pending|
    ensures QueueCurrent(Saved(s, s, w, night, maxEpisodes), Cycle(s, w, night, maxEpisodes).0)
      <==> Holds(s, w, night, maxEpisodes) || !night || NothingMoves(s, w.answers) || !LaunchFails(s, w)
  {
    hide Drain, WaitRun, CollectReading, CursorAdvanced, Spent, NothingMoves;
    if !Holds(s, w, night, maxEpisodes) {
      var drained := if night then Drain(s, w.answers) else s;
      if night {
        DrainCounts(s, w.answers);
        DrainChat(s, w.answers);
        DrainCurrentIff(s, w.answers);
      }
      LaunchKeeps(drained, w);
      LaunchFailsIff(drained, w);
    }
  }

  lemma DrainChat(s: State, answers: seq<bool>)
    requires |answers| == |s.pending|
    ensures Drain(s, answers).hasChat == s.hasChat
  {
    DrainAllChat(s.(pending := []), s.pending, answers);
  }

  lemma {:induction false} DrainAllChat(s: State, items: seq<Task>, answers: seq<bool>)
    requires |answers| == |items|
    ensures DrainAll(s, items, answers).hasChat == s.hasChat
    decreases |items|
  {
    if items != [] {
      DrainAllChat(DrainOne(s, items[0], answers[0]), items[1..], answers[1..]);
    }
  }

  /* ---------- restarts ---------- */

  /** The process that takes over: the file's state, with the record of what was done before. */
  function Restarted(file: State, before: State): State {
    file.(record := before.record)
  }

  /** The tasks a cycle fires. */
  function Firing(s: State, answers: seq<bool>): seq<Task>
    requires |answers| == |s.pending|
  {
    Select(s.pending, Fates(s.(pending := []), s.pending, answers), IsFired)
  }

  predicate SameBudgets(a: State, b: State) {
    a.orientation == b.orientation && a.flattening == b.flattening
  }

  lemma {:induction false} FatesRead(a: State, b: State, items: seq<Task>, answers: seq<bool>)
    requires |answers| == |items| && SameBudgets(a, b)
    ensures Fates(a, items, answers) == Fates(b, items, answers)
    decreases |items|
  {
    if items != [] {
      FatesRead(DrainOne(a, items[0], answers[0]), DrainOne(b, items[0], answers[0]), items[1..], answers[1..]);
    }
  }

  lemma DrainFires(s: State, answers: seq<bool>)
    requires |answers| == |s.pending|
    ensures Drain(s, answers).record.fired == s.record.fired + Firing(s, answers)
  {
    hide DrainAll, Fates, Select;
    DrainInOrder(s.(pending := []), s.pending, answers);
  }

  /** A cycle past its first checks fires what draining fires, and nothing else. */
  lemma CycleFires(s: State, w: World, maxEpisodes: int)
    requires |w.answers| == |s.pending| && !Holds(s, w, true, maxEpisodes)
    ensures Cycle(s, w, true, maxEpisodes).0.record.fired == s.record.fired + Firing(s, w.answers)
  {
    hide Drain, WaitRun, EnqueueAll, CursorAdvanced, Firing;
    DrainFires(s, w.answers);
    var (t, dispatched, gaveUp) := Launch(Drain(s, w.answers), w);
    LaunchKeeps(Drain(s, w.answers), w);
    var v := Waited(t.(episode := t.episode + 1), w).0;
    if w.last.Some? {
      var x := ApplyIds(v, w.last.value);
      EnqueueFires(x, w.last.value.signals);
      EnqueueFires(Numbering(x), w.last.value.signals);
    }
  }

  lemma {:induction false} EnqueueFires(s: State, items: seq<Task>)
    ensures EnqueueAll(s, items).record.fired == s.record.fired
    decreases |items|
  {
    if items != [] {
      EnqueueFires(Enqueue(s, items[0]), items[1..]);
    }
  }

  /**
   * Every task fired in any cycle whose launch fails is fired again, in the same order, by a restarted process that
   * gets the same answers, whatever else it meets and whatever is left of the budgets.
   */
  lemma RestartFiresAgain(s: State, w: World, again: World, maxEpisodes: int)
    requires |w.answers| == |s.pending| && again.answers == w.answers
    requires !Holds(s, w, true, maxEpisodes) && LaunchFails(s, w) && !Holds(s, again, true, maxEpisodes)
    ensures var t := Cycle(s, w, true, maxEpisodes).0;
      var next := Restarted(Saved(s, s, w, true, maxEpisodes), t);
      && next.pending == s.pending
      && Cycle(next, again, true, maxEpisodes).0.record.fired
         == s.record.fired + Firing(s, w.answers) + Firing(s, w.answers)
  {
    hide Drain, WaitRun, CollectReading, Firing, Cycle;
    var t := Cycle(s, w, true, maxEpisodes).0;
    DrainCounts(s, w.answers);
    DrainChat(s, w.answers);
    LaunchFailsIff(Drain(s, w.answers), w);
    var next := Restarted(s, t);
    CycleFires(s, w, maxEpisodes);
    CycleFires(next, again, maxEpisodes);
    SameFiring(next, s, w.answers);
  }

  lemma SameFiring(a: State, b: State, answers: seq<bool>)
    requires a.pending == b.pending && SameBudgets(a, b) && |answers| == |a.pending|
    ensures Firing(a, answers) == Firing(b, answers)
  {
    hide Fates;
    FatesRead(a.(pending := []), b.(pending := []), a.pending, answers);
  }

  /** So a todo with one run left, fired once before a failed launch, ends up with more runs than its budget. */
  lemma RestartOverspends(s: State, item: Task, w: World, maxEpisodes: int)
    requires s.pending == [item] && BudgetOf(s, item.todo).count + 1 == BudgetOf(s, item.todo).max
    requires BudgetOf(s, item.todo).count == FiredFor(s.record.fired, item.todo)
    requires w.answers == [true] && !Holds(s, w, true, maxEpisodes) && LaunchFails(s, w)
    ensures var next := Restarted(Saved(s, s, w, true, maxEpisodes), Cycle(s, w, true, maxEpisodes).0);
      && |next.pending| == 1
      && FiredFor(Cycle(next, w, true, maxEpisodes).0.record.fired, item.todo) > BudgetOf(s, item.todo).max
  {
    hide Saved, Cycle, FiredFor;
    RestartFiresAgain(s, w, w, maxEpisodes);
    OneFires(s, item);
    FiredMore(s.record.fired, item, item.todo);
    FiredMore(s.record.fired + [item], item, item.todo);
  }

  lemma OneFires(s: State, item: Task)
    requires s.pending == [item] && !Spent(s, item.todo)
    ensures Firing(s, [true]) == [item]
  {
    var e := s.(pending := []);
    SpentReads(e, s, item.todo);
    assert [item][1..] == [] && [true][1..] == [];
    assert Fates(e, [item], [true]) == [IsFired] + [];
    assert Select([item], [IsFired], IsFired) == [item] + Select([], [], IsFired);
  }
}
