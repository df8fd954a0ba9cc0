/** No reclaimed commit is lost. */
module ReclaimRuns {
  import opened Text
  import opened Reclaim

  /** The HEAD a lane is removed with: its own, or the snapshot of its work on top of it. */
  function LastHead(lane: Lane, luck: Luck): Option<Commit> {
    if PorcelainEmpty(lane, luck) then lane.head
    else if Committed(lane, luck).Some? then Committed(lane, luck).value.head else None
  }

  /** No two lanes in the list share a ref. */
  predicate RefsDistinct(names: seq<string>) {
    forall i, j :: 0 <= i < j < |names| ==> WipRef(names[i]) != WipRef(names[j])
  }

  /** What a lane's row tells about the repository it left. */
  lemma EvaluateMeans(repo: Repo, name: string, mode: Mode, luck: Luck)
    requires name in repo.lanes
    ensures var (after, row) := Evaluate(repo, name, mode, luck);
      && row.lane == name
      && (row.removed <==> name !in after.lanes)
      && (row.removed ==> mode.execute && Gate(name, repo.lanes[name], mode, luck).None?
                          && LastHead(repo.lanes[name], luck).Some? && row.sha == LastHead(repo.lanes[name], luck)
                          && row.wipRef == Some(WipRef(name)) && WipRef(name) in after.refs && after.refs[WipRef(name)] == row.sha.value)
      && (!row.removed ==> after.lanes[name] == repo.lanes[name]
                           || (Committed(repo.lanes[name], luck).Some? && after.lanes[name] == Committed(repo.lanes[name], luck).value))
  {
    hide Gate, Committed, PorcelainEmpty, WipRef;
  }

  /** A lane writes its own ref and no other. */
  lemma OtherRefsStay(repo: Repo, name: string, mode: Mode, luck: Luck, wipRef: string)
    requires name in repo.lanes && wipRef != WipRef(name) && wipRef in repo.refs
    ensures var after := Evaluate(repo, name, mode, luck).0; wipRef in after.refs && after.refs[wipRef] == repo.refs[wipRef]
  {
    hide Gate, Committed, PorcelainEmpty, WipRef;
  }

  lemma LaneKeepsRefs(repo: Repo, name: string, mode: Mode, luck: Luck)
    requires name in repo.lanes
    ensures repo.refs.Keys <= Evaluate(repo, name, mode, luck).0.refs.Keys
  {
    hide Gate, Committed, PorcelainEmpty, WipRef;
  }

  /** No run deletes a ref. */
  lemma {:induction false} RefsStay(start: Repo, names: seq<string>, mode: Mode, luck: string -> Luck)
    ensures start.refs.Keys <= Run(start, names, mode, luck).0.refs.Keys
    decreases |names|
  {
    hide Evaluate, SyntheticRows;
    if names != [] {
      var n := |names| - 1;
      RefsStay(start, names[..n], mode, luck);
      var mid := EvaluateAll(start, names[..n], mode, luck).0;
      if names[n] in mid.lanes {
        LaneKeepsRefs(mid, names[n], mode, luck(names[n]));
      }
    }
  }

  /** The row of a lane that was removed, and the ref that holds its HEAD in `repo`. */
  predicate Held(start: Repo, repo: Repo, row: Row, luck: string -> Luck) {
    row.removed ==>
      && row.lane in start.lanes && row.lane !in repo.lanes
      && LastHead(start.lanes[row.lane], luck(row.lane)).Some? && row.sha == LastHead(start.lanes[row.lane], luck(row.lane))
      && WipRef(row.lane) in repo.refs && repo.refs[WipRef(row.lane)] == row.sha.value
  }

  lemma HeldStays(start: Repo, repo: Repo, row: Row, luck: string -> Luck, name: string, mode: Mode)
    requires Held(start, repo, row, luck) && name in repo.lanes && WipRef(name) != WipRef(row.lane)
    ensures Held(start, Evaluate(repo, name, mode, luck(name)).0, row, luck)
  {
    hide WipRef, LastHead, Evaluate;
    if row.removed {
      OtherRefsStay(repo, name, mode, luck(name), WipRef(row.lane));
      NoLaneAppears(repo, name, mode, luck(name), row.lane);
    }
  }

  lemma NoLaneAppears(repo: Repo, name: string, mode: Mode, luck: Luck, other: string)
    requires name in repo.lanes && other !in repo.lanes
    ensures other !in Evaluate(repo, name, mode, luck).0.lanes
  {
    hide Gate, Committed, PorcelainEmpty, WipRef;
  }

  lemma NowHeld(start: Repo, repo: Repo, name: string, mode: Mode, luck: string -> Luck)
    requires name in repo.lanes && name in start.lanes && repo.lanes[name] == start.lanes[name]
    ensures var (after, row) := Evaluate(repo, name, mode, luck(name)); Held(start, after, row, luck) && row.lane == name
  {
    hide Evaluate, LastHead, WipRef, Gate, Committed;
    EvaluateMeans(repo, name, mode, luck(name));
  }

  lemma DistinctFront(names: seq<string>)
    requires names != [] && RefsDistinct(names) && Distinct(names)
    ensures RefsDistinct(names[..|names| - 1]) && Distinct(names[..|names| - 1])
  {
    hide WipRef;
  }

  lemma {:induction false} AllHeld(start: Repo, names: seq<string>, mode: Mode, luck: string -> Luck)
    requires Distinct(names) && RefsDistinct(names) && AllPresent(start, names)
    ensures var (repo, rows) := EvaluateAll(start, names, mode, luck);
      forall i :: 0 <= i < |names| ==> rows[i].lane == names[i] && Held(start, repo, rows[i], luck)
    decreases |names|
  {
    hide Evaluate, Held, WipRef;
    if names != [] {
      var n := |names| - 1;
      var front := names[..n];
      DistinctFront(names);
      AllHeld(start, front, mode, luck);
      var (mid, rows) := EvaluateAll(start, front, mode, luck);
      StillThere(start, names, n, mode, luck);
      NowHeld(start, mid, names[n], mode, luck);
      forall i | 0 <= i < n ensures Held(start, Evaluate(mid, names[n], mode, luck(names[n])).0, rows[i], luck) {
        assert rows[i].lane == front[i] == names[i];
        HeldStays(start, mid, rows[i], luck, names[n], mode);
      }
    }
  }

  /**
   * When the sanitised names are distinct, at the end of a run every removed lane's HEAD, with its uncommitted work
   * in a snapshot when there was any, is held by the lane's own ref.
   */
  lemma RemovedHeadsHeld(start: Repo, names: seq<string>, mode: Mode, luck: string -> Luck, i: nat)
    requires Distinct(names) && RefsDistinct(names) && AllPresent(start, names) && i < |names|
    requires names[i] !in Run(start, names, mode, luck).0.lanes
    ensures var repo := Run(start, names, mode, luck).0;
      var lane := start.lanes[names[i]];
      && WipRef(names[i]) in repo.refs
      && Some(repo.refs[WipRef(names[i])]) == LastHead(lane, luck(names[i]))
      && (lane.work.Some? && luck(names[i]).addOk ==> repo.refs[WipRef(names[i])] == Snapshot(lane.head, lane.work.value))
      && (lane.work.None? && luck(names[i]).statusOk ==> Some(repo.refs[WipRef(names[i])]) == lane.head)
  {
    hide EvaluateAll, WipRef;
    AllHeld(start, names, mode, luck);
    AbsentIsRemoved(start, names, mode, luck, i);
    assert Held(start, EvaluateAll(start, names, mode, luck).0, EvaluateAll(start, names, mode, luck).1[i], luck);
  }

  /**
   * In every such run the uncommitted work of a removed lane is held by its ref exactly when `git add` succeeded or
   * all of the work was staged before.
   */
  lemma WorkHeldIff(start: Repo, names: seq<string>, mode: Mode, luck: string -> Luck, i: nat)
    requires Distinct(names) && RefsDistinct(names) && AllPresent(start, names) && i < |names|
    requires names[i] !in Run(start, names, mode, luck).0.lanes && start.lanes[names[i]].work.Some?
    ensures var repo := Run(start, names, mode, luck).0;
      var lane := start.lanes[names[i]];
      && WipRef(names[i]) in repo.refs
      && (repo.refs[WipRef(names[i])] == Snapshot(lane.head, lane.work.value) <==> luck(names[i]).addOk || lane.staged == lane.work)
  {
    hide Run, WipRef;
    RemovedHeadsHeld(start, names, mode, luck, i);
  }

  lemma {:induction false} AbsentIsRemoved(start: Repo, names: seq<string>, mode: Mode, luck: string -> Luck, i: nat)
    requires Distinct(names) && AllPresent(start, names) && i < |names|
    ensures var (repo, rows) := EvaluateAll(start, names, mode, luck); rows[i].removed <==> names[i] !in repo.lanes
    decreases |names|
  {
    hide Evaluate, WipRef;
    var n := |names| - 1;
    StillThere(start, names, n, mode, luck);
    var mid := EvaluateAll(start, names[..n], mode, luck).0;
    EvaluateMeans(mid, names[n], mode, luck(names[n]));
    if i < n {
      AbsentIsRemoved(start, names[..n], mode, luck, i);
      assert names[..n][i] == names[i] && names[i] != names[n];
      if names[i] in mid.lanes {
        OtherLanesStay(mid, names[n], mode, luck(names[n]), names[i]);
      } else {
        NoLaneAppears(mid, names[n], mode, luck(names[n]), names[i]);
      }
    }
  }

  /* ---------- what is never removed ---------- */

  lemma GatedStays(repo: Repo, name: string, mode: Mode, luck: Luck)
    requires name in repo.lanes && (ProtectedThread(ThreadOf(name)) || ThreadOf(name) in mode.live || mode.unavailable || !mode.execute)
    ensures Evaluate(repo, name, mode, luck).0 == repo
  {
    hide Committed, WipRef, ThreadOf, ProtectedThread, PorcelainEmpty;
  }

  /** The directory of thread `t`. */
  lemma LaneThread(t: string)
    ensures ThreadOf("lane-" + t) == t
  {
    assert "lane-" <= "lane-" + t;
    assert ("lane-" + t)[5..] == t;
  }

  /** A directory not named like that belongs to no thread. */
  lemma NoLaneNoThread(name: string)
    requires !("lane-" <= name)
    ensures ThreadOf(name) == ""
  {
  }

  lemma ProtectedAre(t: string)
    ensures ProtectedThread(t) <==> t == "11767" || t == "20793"
  {
  }

  /** The lanes of the two protected threads and of live dispatches stay in every run, with their HEAD and their work. */
  lemma ShieldedLanesStay(start: Repo, names: seq<string>, mode: Mode, luck: string -> Luck, t: string)
    requires Distinct(names) && AllPresent(start, names) && "lane-" + t in start.lanes
    requires t == "11767" || t == "20793" || t in mode.live
    ensures var repo := Run(start, names, mode, luck).0;
      "lane-" + t in repo.lanes && repo.lanes["lane-" + t] == start.lanes["lane-" + t]
  {
    hide ThreadOf, ProtectedThread;
    var name := "lane-" + t;
    LaneThread(t);
    ProtectedAre(t);
    if name !in names {
      LaneUntouched(start, names, mode, luck, name);
    } else {
      var i :| 0 <= i < |names| && names[i] == name;
      ShieldedAt(start, names, mode, luck, i, |names|);
      assert names[..|names|] == names;
    }
  }

  lemma {:induction false} ShieldedAt(start: Repo, names: seq<string>, mode: Mode, luck: string -> Luck, i: nat, n: nat)
    requires Distinct(names) && AllPresent(start, names) && i < n <= |names|
    requires ProtectedThread(ThreadOf(names[i])) || ThreadOf(names[i]) in mode.live
    ensures var repo := EvaluateAll(start, names[..n], mode, luck).0;
      names[i] in repo.lanes && repo.lanes[names[i]] == start.lanes[names[i]]
    decreases n
  {
    hide Evaluate, ThreadOf, ProtectedThread;
    StillThere(start, names, n - 1, mode, luck);
    assert names[..n][..n - 1] == names[..n - 1];
    var mid := EvaluateAll(start, names[..n - 1], mode, luck).0;
    if i == n - 1 {
      GatedStays(mid, names[i], mode, luck(names[i]));
    } else {
      ShieldedAt(start, names, mode, luck, i, n - 1);
      assert names[i] != names[n - 1];
      OtherLanesStay(mid, names[n - 1], mode, luck(names[n - 1]), names[i]);
    }
  }

  /** A dry run, and a run that cannot read the ledger, change nothing at all. */
  lemma {:induction false} HarmlessRun(start: Repo, names: seq<string>, mode: Mode, luck: string -> Luck)
    requires !mode.execute || mode.unavailable
    ensures Run(start, names, mode, luck).0 == start
    decreases |names|
  {
    hide Evaluate;
    if names != [] {
      var n := |names| - 1;
      HarmlessRun(start, names[..n], mode, luck);
      if names[n] in start.lanes {
        GatedStays(start, names[n], mode, luck(names[n]));
      }
    }
  }

  /* ---------- one row per lane ---------- */

  function LanesOf(rows: seq<Row>): (r: seq<string>)
    ensures |r| == |rows| && forall i :: 0 <= i < |rows| ==> r[i] == rows[i].lane
  {
    seq(|rows|, i requires 0 <= i < |rows| => rows[i].lane)
  }

  /** The threads that get a synthetic row. */
  predicate Listed(thread: string, threads: seq<string>, seen: seq<string>, skipProtected: bool) {
    thread in threads && LANE + thread !in seen && !(skipProtected && ProtectedThread(thread))
  }

  lemma SameLane(a: string, b: string)
    ensures LANE + a == LANE + b ==> a == b
  {
    assert (LANE + a)[|LANE|..] == a && (LANE + b)[|LANE|..] == b;
  }

  lemma {:induction false} SyntheticIs(threads: seq<string>, seen: seq<string>, skipProtected: bool, reason: Reason, thread: string)
    ensures LANE + thread in LanesOf(SyntheticRows(threads, seen, skipProtected, reason)) <==> Listed(thread, threads, seen, skipProtected)
    decreases |threads|
  {
    hide ProtectedThread;
    if threads != [] {
      var n := |threads| - 1;
      SyntheticIs(threads[..n], seen, skipProtected, reason, thread);
      SameLane(thread, threads[n]);
      var rows := SyntheticRows(threads[..n], seen, skipProtected, reason);
      assert LanesOf(rows + [Skip(LANE + threads[n], reason)]) == LanesOf(rows) + [LANE + threads[n]];
      assert threads == threads[..n] + [threads[n]];
    }
  }

  predicate NamedBy(lane: string, threads: seq<string>) {
    exists k :: 0 <= k < |threads| && lane == LANE + threads[k]
  }

  lemma {:induction false} SyntheticLanes(threads: seq<string>, seen: seq<string>, skipProtected: bool, reason: Reason, i: nat)
    requires i < |SyntheticRows(threads, seen, skipProtected, reason)|
    ensures NamedBy(SyntheticRows(threads, seen, skipProtected, reason)[i].lane, threads)
    decreases |threads|
  {
    hide ProtectedThread;
    var n := |threads| - 1;
    var front, lane := threads[..n], SyntheticRows(threads, seen, skipProtected, reason)[i].lane;
    if i < |SyntheticRows(front, seen, skipProtected, reason)| {
      SyntheticLanes(front, seen, skipProtected, reason, i);
      var k :| 0 <= k < |front| && lane == LANE + front[k];
      assert lane == LANE + threads[k];
    } else {
      assert lane == LANE + threads[n];
    }
  }

  lemma {:induction false} SyntheticDistinct(threads: seq<string>, seen: seq<string>, skipProtected: bool, reason: Reason)
    requires Distinct(threads)
    ensures Distinct(LanesOf(SyntheticRows(threads, seen, skipProtected, reason)))
    decreases |threads|
  {
    hide ProtectedThread;
    if threads != [] {
      var n := |threads| - 1;
      SyntheticDistinct(threads[..n], seen, skipProtected, reason);
      SyntheticIs(threads[..n], seen, skipProtected, reason, threads[n]);
      var rows := SyntheticRows(threads[..n], seen, skipProtected, reason);
      assert LanesOf(rows + [Skip(LANE + threads[n], reason)]) == LanesOf(rows) + [LANE + threads[n]];
    }
  }

  lemma {:induction false} EvaluatedLanes(repo: Repo, names: seq<string>, mode: Mode, luck: string -> Luck)
    ensures LanesOf(EvaluateAll(repo, names, mode, luck).1) == names
    decreases |names|
  {
    hide Evaluate;
    if names != [] {
      var n := |names| - 1;
      EvaluatedLanes(repo, names[..n], mode, luck);
      var (mid, rows) := EvaluateAll(repo, names[..n], mode, luck);
      if names[n] in mid.lanes {
        EvaluateMeans(mid, names[n], mode, luck(names[n]));
      }
      assert forall i :: 0 <= i < n ==> rows[i].lane == LanesOf(rows)[i];
    }
  }

  lemma DistinctJoin(a: seq<string>, b: seq<string>)
    requires Distinct(a) && Distinct(b) && forall i :: 0 <= i < |b| ==> b[i] !in a
    ensures Distinct(a + b)
  {
  }

  lemma LanesConcat(a: seq<Row>, b: seq<Row>)
    ensures LanesOf(a + b) == LanesOf(a) + LanesOf(b)
  {
  }

  /** Each lane gets exactly one row: the listed directories in order, then protected and live threads without one. */
  lemma OneRowPerLane(start: Repo, names: seq<string>, mode: Mode, luck: string -> Luck)
    requires Distinct(names) && Distinct(mode.live)
    ensures var lanes := LanesOf(Run(start, names, mode, luck).1);
      && names <= lanes && Distinct(lanes)
      && forall thread :: LANE + thread in lanes <==>
           LANE + thread in names || ProtectedThread(thread) || (!mode.unavailable && thread in mode.live)
  {
    hide EvaluateAll, SyntheticRows, ProtectedThread;
    var rows := EvaluateAll(start, names, mode, luck).1;
    var guarded := SyntheticRows(PROTECTED, names, false, Protected);
    var live := if mode.unavailable then [] else SyntheticRows(mode.live, names, true, LiveDispatch);
    EvaluatedLanes(start, names, mode, luck);
    LanesConcat(rows, guarded);
    LanesConcat(rows + guarded, live);
    ProtectedDistinct();
    SyntheticDistinct(PROTECTED, names, false, Protected);
    SyntheticDistinct(mode.live, names, true, LiveDispatch);
    forall thread ensures
      && (LANE + thread in LanesOf(guarded) <==> ProtectedThread(thread) && LANE + thread !in names)
      && (LANE + thread in LanesOf(live) <==>
            !mode.unavailable && thread in mode.live && LANE + thread !in names && !ProtectedThread(thread))
    {
      ProtectedIs(thread);
      SyntheticIs(PROTECTED, names, false, Protected, thread);
      SyntheticIs(mode.live, names, true, LiveDispatch, thread);
    }
    forall i | 0 <= i < |guarded| ensures LanesOf(guarded)[i] !in names {
      SyntheticLanes(PROTECTED, names, false, Protected, i);
      var k :| 0 <= k < |PROTECTED| && guarded[i].lane == LANE + PROTECTED[k];
      assert LANE + PROTECTED[k] in LanesOf(guarded);
    }
    DistinctJoin(names, LanesOf(guarded));
    forall i | 0 <= i < |live| ensures LanesOf(live)[i] !in names + LanesOf(guarded) {
      SyntheticLanes(mode.live, names, true, LiveDispatch, i);
      var k :| 0 <= k < |mode.live| && live[i].lane == LANE + mode.live[k];
      assert LANE + mode.live[k] in LanesOf(live);
    }
    DistinctJoin(names + LanesOf(guarded), LanesOf(live));
  }

  lemma ProtectedIs(thread: string)
    ensures ProtectedThread(thread) <==> thread in PROTECTED
  {
  }

  lemma ProtectedDistinct()
    ensures Distinct(PROTECTED)
  {
    assert PROTECTED[0][0] != PROTECTED[1][0];
  }

  /* ---------- where it fails ---------- */

  const LUCKY := Luck(true, true, false, Clear, true, true, true, true, true)

  /** The branch of the lane does not contain its HEAD. */
  const UNHELD := LUCKY.(contained := false)

  /**
   * Two removable lanes whose names sanitise alike, neither HEAD on its branch: the first one's HEAD is then held by
   * no ref at all.
   */
  lemma CollisionLosesHead(a: string, b: string)
    requires a != b && WipRef(a) == WipRef(b) && !ProtectedThread(ThreadOf(a)) && !ProtectedThread(ThreadOf(b))
    ensures var start := Repo(map[a := Lane(Some(Given("one")), None, None), b := Lane(Some(Given("two")), None, None)], map[]);
      var repo := Run(start, [a, b], Mode([], true, true, false), _ => UNHELD).0;
      a !in repo.lanes && WipRef(a) in repo.refs && forall r :: r in repo.refs ==> repo.refs[r] != Given("one")
  {
    hide WipRef, ThreadOf, ProtectedThread;
    var mode, luck := Mode([], true, true, false), (_: string) => UNHELD;
    var start := Repo(map[a := Lane(Some(Given("one")), None, None), b := Lane(Some(Given("two")), None, None)], map[]);
    var mid := Repo(map[b := Lane(Some(Given("two")), None, None)], map[WipRef(a) := Given("one")]);
    assert Evaluate(start, a, mode, UNHELD).0 == mid by { assert start.lanes - {a} == mid.lanes; }
    assert [a, b][..1] == [a] && [a][..0] == [];
    assert EvaluateAll(start, [], mode, luck) == (start, []);
    assert EvaluateAll(start, [a], mode, luck).0 == mid;
    assert EvaluateAll(start, [a, b], mode, luck).0 == Evaluate(mid, b, mode, UNHELD).0;
    assert Evaluate(mid, b, mode, UNHELD).0.refs == map[WipRef(a) := Given("two")];
  }

  /** Such names exist: a space and an underscore. */
  lemma CollidingNames()
    ensures WipRef("lane-a b") == WipRef("lane-a_b")
  {
    SameClean("lane-a", ' ', '_', "b");
  }

  lemma {:induction false} SameClean(front: string, c: char, d: char, back: string)
    requires (SafeChar(c) ==> c == '_') && (SafeChar(d) ==> d == '_')
    ensures CleanChars(front + [c] + back) == CleanChars(front + [d] + back)
  {
    if front != "" {
      assert (front + [c] + back)[1..] == front[1..] + [c] + back;
      assert (front + [d] + back)[1..] == front[1..] + [d] + back;
      SameClean(front[1..], c, d, back);
    } else {
      assert (front + [c] + back)[1..] == back && (front + [d] + back)[1..] == back;
    }
  }

  /** When `git add` fails, only what was staged is committed, and the rest of the work goes with the directory. */
  lemma FailedAddLosesWork(name: string, head: Commit, work: string, staged: string)
    requires !ProtectedThread(ThreadOf(name)) && work != staged
    ensures var start := Repo(map[name := Lane(Some(head), Some(work), Some(staged))], map[]);
      var repo := Run(start, [name], Mode([], true, false, false), _ => LUCKY.(addOk := false)).0;
      name !in repo.lanes && WipRef(name) in repo.refs && repo.refs[WipRef(name)] == Snapshot(Some(head), staged)
  {
    hide WipRef, ThreadOf, ProtectedThread;
    var mode, luck := Mode([], true, false, false), (_: string) => LUCKY.(addOk := false);
    var start := Repo(map[name := Lane(Some(head), Some(work), Some(staged))], map[]);
    assert [name][..0] == [];
    assert EvaluateAll(start, [], mode, luck) == (start, []);
    assert EvaluateAll(start, [name], mode, luck).0 == Evaluate(start, name, mode, luck(name)).0;
  }
}
