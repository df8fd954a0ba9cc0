/** What holds after every sequence of reactor cycles from a fresh state. */
module ReactorRuns {
  import opened Text
  import opened WaitLoop
  import opened Reactor

  function Fresh(budget: int): State {
    State(0, 0, false, None, Budget(0, budget), Budget(0, budget), [], Record([], [], [], []))
  }

  /** The process's cycles; it stops at the first outcome other than `Continue`. */
  function Cycles(s: State, worlds: seq<World>, night: bool, maxEpisodes: int): State
    decreases |worlds|
  {
    if worlds == [] || |worlds[0].answers| != |s.pending| then s
    else
      var (t, outcome) := Cycle(s, worlds[0], night, maxEpisodes);
      if outcome.Continue? then Cycles(t, worlds[1..], night, maxEpisodes) else t
  }

  /** The numbers 1 to `n` in order. */
  predicate Numbered(harvests: seq<nat>, n: nat) {
    |harvests| == n && forall i :: 0 <= i < n ==> harvests[i] == i + 1
  }

  function FiredFor(fired: seq<Task>, todo: Todo): nat {
    if fired == [] then 0 else FiredFor(fired[..|fired| - 1], todo) + if fired[|fired| - 1].todo == todo then 1 else 0
  }

  predicate Capped(b: Budget, fired: seq<Task>, todo: Todo, budget: int) {
    b.max == budget && b.count == FiredFor(fired, todo) && (b.count <= budget || b.count == 0)
  }

  /** Every queued task is waiting, was fired, or was dropped with its budget spent. */
  predicate Accounted(s: State) {
    && multiset(s.record.queued) == multiset(s.pending) + multiset(s.record.fired) + multiset(s.record.dropped)
    && forall i :: 0 <= i < |s.record.dropped| ==> Spent(s, s.record.dropped[i].todo)
  }

  predicate BudgetsOk(s: State, budget: int) {
    && Capped(s.orientation, s.record.fired, Orientation, budget)
    && Capped(s.flattening, s.record.fired, Flattening, budget)
  }

  predicate Queue(s: State, budget: int) {
    BudgetsOk(s, budget) && Accounted(s)
  }

  predicate Counts(s: State, maxEpisodes: nat) {
    s.harvestSeq <= s.episode <= maxEpisodes && Numbered(s.record.harvests, s.harvestSeq)
  }

  predicate Inv(s: State, budget: int, maxEpisodes: nat) {
    Queue(s, budget) && Counts(s, maxEpisodes)
  }

  /** What the queue operations leave alone. */
  predicate SameCounts(s: State, t: State) {
    t.episode == s.episode && t.harvestSeq == s.harvestSeq && t.record.harvests == s.record.harvests && t.cursor == s.cursor
  }

  predicate SameQueue(s: State, t: State) {
    && t.orientation == s.orientation && t.flattening == s.flattening && t.pending == s.pending
    && t.record.queued == s.record.queued && t.record.fired == s.record.fired && t.record.dropped == s.record.dropped
  }

  lemma QueueSame(s: State, t: State, budget: int)
    requires Queue(s, budget) && SameQueue(s, t)
    ensures Queue(t, budget)
  {
    hide FiredFor;
    forall i | 0 <= i < |t.record.dropped| ensures Spent(t, t.record.dropped[i].todo) {
      assert Spent(s, s.record.dropped[i].todo);
    }
  }

  /* ---------- draining ---------- */

  /** While draining, the items not yet looked at are still owed. */
  predicate Draining(s: State, items: seq<Task>, budget: int) {
    && BudgetsOk(s, budget)
    && multiset(s.record.queued) == multiset(items) + multiset(s.pending) + multiset(s.record.fired) + multiset(s.record.dropped)
    && forall i :: 0 <= i < |s.record.dropped| ==> Spent(s, s.record.dropped[i].todo)
  }

  lemma FiredMore(fired: seq<Task>, item: Task, todo: Todo)
    ensures FiredFor(fired + [item], todo) == FiredFor(fired, todo) + if item.todo == todo then 1 else 0
  {
    assert (fired + [item])[..|fired|] == fired;
  }

  lemma FireOne(s: State, item: Task, budget: int)
    requires BudgetsOk(s, budget) && !Spent(s, item.todo)
    ensures BudgetsOk(DrainOne(s, item, true), budget)
  {
    hide FiredFor;
    FiredMore(s.record.fired, item, Orientation);
    FiredMore(s.record.fired, item, Flattening);
  }

  lemma DrainBudgets(s: State, item: Task, answered: bool, budget: int)
    requires BudgetsOk(s, budget)
    ensures BudgetsOk(DrainOne(s, item, answered), budget)
  {
    hide FiredFor;
    if !Spent(s, item.todo) && answered { FireOne(s, item, budget); }
  }

  lemma SpentStays(s: State, item: Task, answered: bool, todo: Todo)
    requires Spent(s, todo)
    ensures Spent(DrainOne(s, item, answered), todo)
  {
  }

  lemma DrainBuckets(s: State, item: Task, answered: bool)
    ensures var t := DrainOne(s, item, answered);
      && t.record.queued == s.record.queued && SameCounts(s, t)
      && multiset(t.pending) + multiset(t.record.fired) + multiset(t.record.dropped)
        == multiset(s.pending) + multiset(s.record.fired) + multiset(s.record.dropped) + multiset{item}
      && (t.record.dropped == s.record.dropped || (Spent(t, item.todo) && t.record.dropped == s.record.dropped + [item]))
  {
  }

  lemma DrainOneKeeps(s: State, items: seq<Task>, answered: bool, budget: int)
    requires items != [] && Draining(s, items, budget)
    ensures Draining(DrainOne(s, items[0], answered), items[1..], budget) && SameCounts(s, DrainOne(s, items[0], answered))
  {
    hide FiredFor, Spent, Capped;
    var item := items[0];
    var t := DrainOne(s, item, answered);
    DrainBuckets(s, item, answered);
    assert items == [item] + items[1..];
    assert multiset(items) == multiset{item} + multiset(items[1..]);
    DrainBudgets(s, item, answered, budget);
    hide DrainOne, BudgetsOk;
    forall i | 0 <= i < |t.record.dropped| ensures Spent(t, t.record.dropped[i].todo) {
      if i < |s.record.dropped| { SpentStays(s, item, answered, s.record.dropped[i].todo); }
    }
  }

  lemma {:induction false} DrainAllKeeps(s: State, items: seq<Task>, answers: seq<bool>, budget: int)
    requires |answers| == |items| && Draining(s, items, budget)
    ensures var t := DrainAll(s, items, answers); Draining(t, [], budget) && SameCounts(s, t)
    decreases |items|
  {
    hide Draining, DrainOne;
    if items != [] {
      DrainOneKeeps(s, items, answers[0], budget);
      DrainAllKeeps(DrainOne(s, items[0], answers[0]), items[1..], answers[1..], budget);
    }
  }

  /** Draining fires, keeps or drops each queued task, drops only on a spent budget, and never overspends one. */
  lemma DrainKeeps(s: State, answers: seq<bool>, budget: int)
    requires |answers| == |s.pending| && Queue(s, budget)
    ensures Queue(Drain(s, answers), budget) && SameCounts(s, Drain(s, answers))
  {
    hide DrainAll, FiredFor;
    var e := s.(pending := []);
    forall i | 0 <= i < |e.record.dropped| ensures Spent(e, e.record.dropped[i].todo) {
      assert Spent(s, s.record.dropped[i].todo);
    }
    DrainAllKeeps(e, s.pending, answers, budget);
  }

  /** One by one, in queue order: the fate of each task given the budget it meets. */
  datatype Fate = IsFired | IsKept | IsDropped

  function FateOf(s: State, item: Task, answered: bool): Fate {
    if BudgetOf(s, item.todo).count >= BudgetOf(s, item.todo).max then IsDropped else if answered then IsFired else IsKept
  }

  function Fates(s: State, items: seq<Task>, answers: seq<bool>): (r: seq<Fate>)
    requires |answers| == |items|
    ensures |r| == |items|
    decreases |items|
  {
    if items == [] then []
    else [FateOf(s, items[0], answers[0])] + Fates(DrainOne(s, items[0], answers[0]), items[1..], answers[1..])
  }

  function Select(items: seq<Task>, fates: seq<Fate>, fate: Fate): seq<Task>
    requires |fates| == |items|
    decreases |items|
  {
    if items == [] then []
    else (if fates[0] == fate then [items[0]] else []) + Select(items[1..], fates[1..], fate)
  }

  lemma JoinThree(a: seq<Task>, x: seq<Task>, b: seq<Task>)
    ensures a + x + b == a + (x + b)
  {
  }

  /** Draining keeps the order: pending, fired and dropped are the queue's tasks of that fate, in queue order. */
  lemma {:induction false} DrainInOrder(s: State, items: seq<Task>, answers: seq<bool>)
    requires |answers| == |items|
    ensures var t, fates := DrainAll(s, items, answers), Fates(s, items, answers);
      && t.pending == s.pending + Select(items, fates, IsKept)
      && t.record.fired == s.record.fired + Select(items, fates, IsFired)
      && t.record.dropped == s.record.dropped + Select(items, fates, IsDropped)
    decreases |items|
  {
    hide FateOf, DrainOne;
    if items != [] {
      var next, fate := DrainOne(s, items[0], answers[0]), FateOf(s, items[0], answers[0]);
      var more := Fates(next, items[1..], answers[1..]);
      DrainInOrder(next, items[1..], answers[1..]);
      OneInOrder(s, items[0], answers[0]);
      assert Fates(s, items, answers) == [fate] + more;
      assert ([fate] + more)[1..] == more;
      forall f: Fate {
        SelectCons(items, fate, more, f);
      }
      JoinThree(s.pending, if fate == IsKept then [items[0]] else [], Select(items[1..], more, IsKept));
      JoinThree(s.record.fired, if fate == IsFired then [items[0]] else [], Select(items[1..], more, IsFired));
      JoinThree(s.record.dropped, if fate == IsDropped then [items[0]] else [], Select(items[1..], more, IsDropped));
    }
  }

  lemma SelectCons(items: seq<Task>, fate: Fate, more: seq<Fate>, f: Fate)
    requires items != [] && |more| == |items| - 1
    ensures Select(items, [fate] + more, f) == (if fate == f then [items[0]] else []) + Select(items[1..], more, f)
  {
    assert ([fate] + more)[1..] == more;
  }

  lemma OneInOrder(s: State, item: Task, answered: bool)
    ensures var t, fate := DrainOne(s, item, answered), FateOf(s, item, answered);
      && t.pending == s.pending + (if fate == IsKept then [item] else [])
      && t.record.fired == s.record.fired + (if fate == IsFired then [item] else [])
      && t.record.dropped == s.record.dropped + (if fate == IsDropped then [item] else [])
  {
  }

  /* ---------- enqueuing ---------- */

  lemma OneMore(pending: seq<Task>, queued: seq<Task>, rest: multiset<Task>, item: Task)
    requires multiset(queued) == multiset(pending) + rest
    ensures multiset(queued + [item]) == multiset(pending + [item]) + rest
  {
  }

  lemma EnqueueBudgets(s: State, item: Task, budget: int)
    requires BudgetsOk(s, budget)
    ensures BudgetsOk(Enqueue(s, item), budget) && SameCounts(s, Enqueue(s, item))
  {
    hide FiredFor, Spent;
  }

  lemma EnqueueBuckets(s: State, item: Task)
    ensures var t := Enqueue(s, item);
      || t == s
      || (&& t.record.queued == s.record.queued + [item] && t.pending == s.pending + [item]
          && t.record.fired == s.record.fired && t.record.dropped == s.record.dropped)
  {
    hide Spent;
  }

  lemma EnqueueKeeps(s: State, item: Task, budget: int)
    requires Queue(s, budget)
    ensures Queue(Enqueue(s, item), budget) && SameCounts(s, Enqueue(s, item))
  {
    hide Spent, BudgetsOk, Enqueue, SameCounts;
    var t := Enqueue(s, item);
    EnqueueBudgets(s, item, budget);
    EnqueueBuckets(s, item);
    if t != s {
      var fired, dropped := multiset(s.record.fired), multiset(s.record.dropped);
      assert multiset(s.record.queued) == multiset(s.pending) + (fired + dropped);
      OneMore(s.pending, s.record.queued, fired + dropped, item);
      assert multiset(t.record.queued) == multiset(t.pending) + fired + dropped;
      forall i | 0 <= i < |t.record.dropped| ensures Spent(t, t.record.dropped[i].todo) {
        assert Spent(s, s.record.dropped[i].todo);
        EnqueueSpends(s, item, s.record.dropped[i].todo);
      }
    }
  }

  lemma EnqueueSpends(s: State, item: Task, todo: Todo)
    ensures Spent(Enqueue(s, item), todo) == Spent(s, todo)
  {
  }

  lemma {:induction false} EnqueueAllKeeps(s: State, items: seq<Task>, budget: int)
    requires Queue(s, budget)
    ensures Queue(EnqueueAll(s, items), budget) && SameCounts(s, EnqueueAll(s, items))
    decreases |items|
  {
    hide Queue, Enqueue;
    if items != [] {
      EnqueueKeeps(s, items[0], budget);
      EnqueueAllKeeps(Enqueue(s, items[0]), items[1..], budget);
    }
  }

  /* ---------- cycles ---------- */

  lemma LaunchKeeps(s: State, w: World)
    ensures var t := Launch(s, w).0;
      SameQueue(s, t) && t.episode == s.episode && t.harvestSeq == s.harvestSeq && t.record.harvests == s.record.harvests
  {
  }

  lemma CollectKeeps(s: State, reason: Option<Reason>, w: World, baseline: Option<int>, dispatched: bool, night: bool,
                     budget: int, maxEpisodes: nat)
    requires Queue(s, budget) && 0 <= s.harvestSeq < s.episode <= maxEpisodes && Numbered(s.record.harvests, s.harvestSeq)
    ensures Inv(Collect(s, reason, w, baseline, dispatched, night).0, budget, maxEpisodes)
  {
    hide Queue, EnqueueAll;
    if reason.Some? && w.last.Some? {
      var r := w.last.value;
      var t := ApplyIds(s, r);
      QueueSame(s, t, budget);
      QueueSame(s, t.(episode := t.episode - 1), budget);
      var u := Numbering(t);
      QueueSame(s, u, budget);
      EnqueueAllKeeps(t, r.signals, budget);
      EnqueueAllKeeps(u, r.signals, budget);
    }
  }

  lemma CycleKeeps(s: State, w: World, night: bool, budget: int, maxEpisodes: nat)
    requires |w.answers| == |s.pending| && Inv(s, budget, maxEpisodes)
    ensures Inv(Cycle(s, w, night, maxEpisodes).0, budget, maxEpisodes)
  {
    hide Queue, Drain, Launch, Collect, Numbered;
    if !(!night && s.episode >= 1) && !w.late && s.episode < maxEpisodes {
      if night { DrainKeeps(s, w.answers, budget); }
      var drained := if night then Drain(s, w.answers) else s;
      LaunchKeeps(drained, w);
      var (t, dispatched, gaveUp) := Launch(drained, w);
      QueueSame(drained, t, budget);
      if gaveUp.None? {
        var (v, reason) := Waited(t.(episode := t.episode + 1), w);
        QueueSame(t, v, budget);
        CollectKeeps(v, reason, w, s.cursor, dispatched, night, budget, maxEpisodes);
      }
    }
  }

  lemma {:induction false} CyclesKeep(s: State, worlds: seq<World>, night: bool, budget: int, maxEpisodes: nat)
    requires Inv(s, budget, maxEpisodes)
    ensures Inv(Cycles(s, worlds, night, maxEpisodes), budget, maxEpisodes)
    decreases |worlds|
  {
    hide Inv, Cycle;
    if worlds != [] && |worlds[0].answers| == |s.pending| {
      CycleKeeps(s, worlds[0], night, budget, maxEpisodes);
      CyclesKeep(Cycle(s, worlds[0], night, maxEpisodes).0, worlds[1..], night, budget, maxEpisodes);
    }
  }

  lemma FreshInv(budget: int, maxEpisodes: nat)
    ensures Inv(Fresh(budget), budget, maxEpisodes)
  {
  }

  /**
   * After any cycles of a fresh process: harvests are numbered 1, 2, ... with none written twice and none past
   * the episode count, which stays within its limit; no todo fired more runs than its budget; and every task ever
   * queued is pending, was fired, or was dropped with its budget spent.
   */
  lemma ReactorSafety(worlds: seq<World>, night: bool, budget: nat, maxEpisodes: nat)
    ensures var s := Cycles(Fresh(budget), worlds, night, maxEpisodes);
      && s.harvestSeq <= s.episode <= maxEpisodes
      && (forall i :: 0 <= i < |s.record.harvests| ==> s.record.harvests[i] == i + 1) && |s.record.harvests| == s.harvestSeq
      && (forall todo :: FiredFor(s.record.fired, todo) <= budget)
      && Accounted(s)
  {
    hide Cycles, FiredFor, Accounted;
    FreshInv(budget, maxEpisodes);
    CyclesKeep(Fresh(budget), worlds, night, budget, maxEpisodes);
    var s := Cycles(Fresh(budget), worlds, night, maxEpisodes);
    forall todo: Todo ensures FiredFor(s.record.fired, todo) <= budget {
      match todo
      case Orientation => assert Capped(s.orientation, s.record.fired, Orientation, budget);
      case Flattening => assert Capped(s.flattening, s.record.fired, Flattening, budget);
    }
  }

  lemma DrainCounts(s: State, answers: seq<bool>)
    requires |answers| == |s.pending|
    ensures SameCounts(s, Drain(s, answers))
  {
    DrainAllCounts(s.(pending := []), s.pending, answers);
  }

  lemma {:induction false} DrainAllCounts(s: State, items: seq<Task>, answers: seq<bool>)
    requires |answers| == |items|
    ensures SameCounts(s, DrainAll(s, items, answers))
    decreases |items|
  {
    if items != [] {
      DrainAllCounts(DrainOne(s, items[0], answers[0]), items[1..], answers[1..]);
    }
  }

  lemma {:induction false} EnqueueCounts(s: State, items: seq<Task>)
    ensures SameCounts(s, EnqueueAll(s, items))
    decreases |items|
  {
    if items != [] {
      EnqueueCounts(Enqueue(s, items[0]), items[1..]);
    }
  }
}
