/** Reclaiming worktree lanes: what is pinned before a directory is removed. Git is a map of worktrees and refs. */
module Reclaim {
  import opened Text

  const LANE := "lane-"
  const WIP := "refs/giw-wip/"

  /** A commit is its contents: a given one, or a snapshot of a working tree on top of another. */
  datatype Commit = Given(name: string) | Snapshot(parent: Option<Commit>, tree: string)

  /** `work` is the uncommitted working tree, `staged` the part of it already in the index. */
  datatype Lane = Lane(head: Option<Commit>, work: Option<string>, staged: Option<string>)

  datatype Repo = Repo(lanes: map<string, Lane>, refs: map<string, Commit>)

  /** How the commands and look-ups about one lane turn out. */
  datatype Luck = Luck(
    statusOk: bool, contained: bool, young: bool, blocking: Blocking,
    addOk: bool, commitOk: bool, headOk: bool, refOk: bool, removeOk: bool)

  datatype Blocking = Clear | NonTerminal | LookupFailed

  datatype Mode = Mode(live: seq<string>, execute: bool, reclaimMismatch: bool, unavailable: bool)

  datatype Reason =
    | Protected | LedgerUnavailable | LiveDispatch | Young | LedgerNonTerminal | BranchMismatch | MismatchDirty
    | CommitFailed | RefCreateFailed | DryRunDirty | DryRun | HeadUnavailable | PinFailed | RemoveFailed | GatesPass

  datatype Row = Row(lane: string, removed: bool, reason: Reason, sha: Option<Commit>, wipRef: Option<string>)

  /* ---------- ref names ---------- */

  predicate SafeChar(c: char) {
    'a' <= c <= 'z' || 'A' <= c <= 'Z' || '0' <= c <= '9' || c == '.' || c == '_' || c == '-'
  }

  function CleanChars(s: string): (r: string)
    ensures |r| == |s| && forall i :: 0 <= i < |r| ==> SafeChar(r[i])
  {
    if s == "" then "" else [if SafeChar(s[0]) then s[0] else '_'] + CleanChars(s[1..])
  }

  predicate HasDots(s: string) {
    exists i :: 0 <= i < |s| - 1 && s[i] == '.' && s[i + 1] == '.'
  }

  /** `replace("..", "_")`. */
  function ReplaceDots(s: string): (r: string)
    ensures |r| <= |s| && (HasDots(s) ==> |r| < |s|) && (s != "" ==> r != "")
    ensures (forall i :: 0 <= i < |s| ==> SafeChar(s[i])) ==> forall i :: 0 <= i < |r| ==> SafeChar(r[i])
  {
    if |s| < 2 then s
    else if s[0] == '.' && s[1] == '.' then "_" + ReplaceDots(s[2..])
    else
      assert HasDots(s) ==> HasDots(s[1..]) by {
        if HasDots(s) {
          var i :| 0 <= i < |s| - 1 && s[i] == '.' && s[i + 1] == '.';
          assert s[1..][i - 1] == '.' && s[1..][i] == '.';
        }
      }
      [s[0]] + ReplaceDots(s[1..])
  }

  function Squash(s: string): (r: string)
    ensures !HasDots(r) && (s != "" ==> r != "")
    ensures (forall i :: 0 <= i < |s| ==> SafeChar(s[i])) ==> forall i :: 0 <= i < |r| ==> SafeChar(r[i])
    decreases |s|
  {
    if HasDots(s) then Squash(ReplaceDots(s)) else s
  }

  /** A ref suffix for any lane name: safe characters, no two dots in a row, never empty. */
  function SanitizeSuffix(lane: string): (r: string)
    ensures r != "" && !HasDots(r) && forall i :: 0 <= i < |r| ==> SafeChar(r[i])
  {
    var cleaned := Squash(CleanChars(lane));
    if cleaned == "" || '/' in cleaned || '\\' in cleaned then "lane_invalid" else cleaned
  }

  function WipRef(lane: string): string {
    WIP + SanitizeSuffix(lane)
  }

  function ThreadOf(lane: string): string {
    if LANE <= lane then lane[|LANE|..] else ""
  }

  const PROTECTED: seq<string> := ["11767", "20793"]

  predicate ProtectedThread(thread: string) {
    thread in PROTECTED
  }

  /* ---------- one lane ---------- */

  predicate PorcelainEmpty(lane: Lane, luck: Luck) {
    luck.statusOk && lane.work.None?
  }

  /** The gates, in order; `None` lets the lane through. */
  function Gate(name: string, lane: Lane, mode: Mode, luck: Luck): Option<Reason> {
    var mismatch := !luck.contained;
    if ProtectedThread(ThreadOf(name)) then Some(Protected)
    else if mode.unavailable then Some(LedgerUnavailable)
    else if ThreadOf(name) in mode.live then Some(LiveDispatch)
    else if luck.young then Some(Young)
    else if luck.blocking.LookupFailed? then Some(LedgerUnavailable)
    else if luck.blocking.NonTerminal? then Some(LedgerNonTerminal)
    else if mismatch && !(mode.reclaimMismatch && mode.execute) then Some(BranchMismatch)
    else if mismatch && !PorcelainEmpty(lane, luck) then Some(MismatchDirty)
    else None
  }

  /** What `git commit` after `git add -A` commits: everything, or what was staged when the add fails. */
  function Tree(lane: Lane, luck: Luck): Option<string> {
    if luck.addOk then lane.work else lane.staged
  }

  /** The lane after its snapshot is committed; `None` when there is no commit. */
  function Committed(lane: Lane, luck: Luck): Option<Lane> {
    if luck.commitOk && Tree(lane, luck).Some?
    then Some(Lane(Some(Snapshot(lane.head, Tree(lane, luck).value)), if luck.addOk then None else lane.work, None)) else None
  }

  function Skip(name: string, reason: Reason): Row {
    Row(name, false, reason, None, None)
  }

  /** Pin HEAD under the lane's ref, then remove the directory. */
  function PinAndRemove(repo: Repo, name: string, luck: Luck, noRef: Reason): (Repo, Row)
    requires name in repo.lanes
  {
    var head := repo.lanes[name].head;
    if !luck.headOk || head.None? then (repo, Skip(name, if noRef.RefCreateFailed? then CommitFailed else HeadUnavailable))
    else if !luck.refOk then (repo, Row(name, false, noRef, head, None))
    else
      var pinned := repo.(refs := repo.refs[WipRef(name) := head.value]);
      if !luck.removeOk then (pinned, Row(name, false, RemoveFailed, head, Some(WipRef(name))))
      else (pinned.(lanes := pinned.lanes - {name}), Row(name, true, GatesPass, head, Some(WipRef(name))))
  }

  function Evaluate(repo: Repo, name: string, mode: Mode, luck: Luck): (Repo, Row)
    requires name in repo.lanes
  {
    var lane := repo.lanes[name];
    var gate := Gate(name, lane, mode, luck);
    if gate.Some? then (repo, Skip(name, gate.value))
    else if !mode.execute then (repo, Skip(name, if PorcelainEmpty(lane, luck) then DryRun else DryRunDirty))
    else if PorcelainEmpty(lane, luck) then PinAndRemove(repo, name, luck, PinFailed)
    else
      match Committed(lane, luck)
      case None => (repo, Skip(name, CommitFailed))
      case Some(after) => PinAndRemove(repo.(lanes := repo.lanes[name := after]), name, luck, RefCreateFailed)
  }

  /* ---------- the run ---------- */

  predicate AllPresent(repo: Repo, names: seq<string>) {
    forall i :: 0 <= i < |names| ==> names[i] in repo.lanes
  }

  function EvaluateAll(repo: Repo, names: seq<string>, mode: Mode, luck: string -> Luck): (r: (Repo, seq<Row>))
    ensures |r.1| == |names|
  {
    if names == [] then (repo, [])
    else
      var n := |names| - 1;
      var (mid, rows) := EvaluateAll(repo, names[..n], mode, luck);
      if names[n] !in mid.lanes then (mid, rows + [Skip(names[n], HeadUnavailable)])
      else
        var (last, row) := Evaluate(mid, names[n], mode, luck(names[n]));
        (last, rows + [row])
  }

  /** Rows for protected or live threads that have no directory. */
  function SyntheticRows(threads: seq<string>, seen: seq<string>, skipProtected: bool, reason: Reason): seq<Row> {
    if threads == [] then []
    else
      var n := |threads| - 1;
      var rows := SyntheticRows(threads[..n], seen, skipProtected, reason);
      if LANE + threads[n] in seen || (skipProtected && ProtectedThread(threads[n])) then rows
      else rows + [Skip(LANE + threads[n], reason)]
  }

  function Run(repo: Repo, names: seq<string>, mode: Mode, luck: string -> Luck): (Repo, seq<Row>) {
    var (last, rows) := EvaluateAll(repo, names, mode, luck);
    (last, rows + SyntheticRows(PROTECTED, names, false, Protected)
                + if mode.unavailable then [] else SyntheticRows(mode.live, names, true, LiveDispatch))
  }

  /** The repository as the reclaimer changes it. */
  class Worktrees {
    var repo: Repo

    constructor (start: Repo)
      ensures repo == start
    {
      repo := start;
    }

    /** Points the lane's ref at its HEAD. */
    method PinHead(name: string, luck: Luck) returns (sha: Option<Commit>, wipRef: Option<string>)
      requires name in repo.lanes
      modifies this
      ensures repo.lanes == old(repo).lanes
      ensures sha == if luck.headOk then repo.lanes[name].head else None
      ensures wipRef == if sha.Some? && luck.refOk then Some(WipRef(name)) else None
      ensures repo.refs == if wipRef.Some? then old(repo).refs[WipRef(name) := sha.value] else old(repo).refs
    {
      hide WipRef;
      sha := if luck.headOk then repo.lanes[name].head else None;
      if sha.None? || !luck.refOk {
        return sha, None;
      }
      wipRef := Some(WipRef(name));
      repo := repo.(refs := repo.refs[WipRef(name) := sha.value]);
    }

    method EvaluateLane(name: string, mode: Mode, luck: Luck) returns (row: Row)
      requires name in repo.lanes
      modifies this
      ensures (repo, row) == Evaluate(old(repo), name, mode, luck)
    {
      hide WipRef, Gate, Committed, PorcelainEmpty;
      var lane := repo.lanes[name];
      var gate := Gate(name, lane, mode, luck);
      if gate.Some? {
        return Skip(name, gate.value);
      }
      var sha: Option<Commit>, wipRef: Option<string> := None, None;
      if !PorcelainEmpty(lane, luck) {
        if !mode.execute {
          return Skip(name, DryRunDirty);
        }
        var after := Committed(lane, luck);
        if after.None? {
          return Skip(name, CommitFailed);
        }
        repo := repo.(lanes := repo.lanes[name := after.value]);
        sha, wipRef := PinHead(name, luck);
        if sha.None? {
          return Skip(name, CommitFailed);
        }
        if wipRef.None? {
          return Row(name, false, RefCreateFailed, sha, None);
        }
      }
      if !mode.execute {
        return Skip(name, DryRun);
      }
      if wipRef.None? {
        sha, wipRef := PinHead(name, luck);
        if sha.None? {
          return Skip(name, HeadUnavailable);
        }
        if wipRef.None? {
          return Row(name, false, PinFailed, sha, None);
        }
      }
      if !luck.removeOk {
        return Row(name, false, RemoveFailed, sha, wipRef);
      }
      repo := repo.(lanes := repo.lanes - {name});
      row := Row(name, true, GatesPass, sha, wipRef);
    }

    method RunReclaim(names: seq<string>, mode: Mode, luck: string -> Luck) returns (rows: seq<Row>)
      requires Distinct(names) && AllPresent(repo, names)
      modifies this
      ensures (repo, rows) == Run(old(repo), names, mode, luck)
    {
      hide Evaluate, ProtectedThread, Distinct, AllPresent;
      rows := [];
      for i := 0 to |names|
        invariant (repo, rows) == EvaluateAll(old(repo), names[..i], mode, luck)
      {
        StillThere(old(repo), names, i, mode, luck);
        assert names[..i + 1][..i] == names[..i];
        var row := EvaluateLane(names[i], mode, luck(names[i]));
        rows := rows + [row];
      }
      assert names[..|names|] == names;
      var shielded := SkipRows(PROTECTED, names, false, Protected);
      rows := rows + shielded;
      if mode.unavailable {
        assert rows + [] == rows;
      } else {
        var live := SkipRows(mode.live, names, true, LiveDispatch);
        rows := rows + live;
      }
    }

    /** One row for each thread that has no directory. */
    method SkipRows(threads: seq<string>, seen: seq<string>, skipProtected: bool, reason: Reason) returns (rows: seq<Row>)
      ensures rows == SyntheticRows(threads, seen, skipProtected, reason)
    {
      hide ProtectedThread;
      rows := [];
      for i := 0 to |threads|
        invariant rows == SyntheticRows(threads[..i], seen, skipProtected, reason)
      {
        assert threads[..i + 1][..i] == threads[..i];
        if LANE + threads[i] in seen || (skipProtected && ProtectedThread(threads[i])) {
          continue;
        }
        rows := rows + [Skip(LANE + threads[i], reason)];
      }
      assert threads[..|threads|] == threads;
    }
  }

  /** Evaluating a lane leaves every other lane as it is. */
  lemma OtherLanesStay(repo: Repo, name: string, mode: Mode, luck: Luck, other: string)
    requires name in repo.lanes && other != name && other in repo.lanes
    ensures var after := Evaluate(repo, name, mode, luck).0; other in after.lanes && after.lanes[other] == repo.lanes[other]
  {
    hide Gate, Committed, WipRef, PorcelainEmpty;
  }

  lemma {:induction false} LaneUntouched(repo: Repo, names: seq<string>, mode: Mode, luck: string -> Luck, other: string)
    requires other !in names && other in repo.lanes
    ensures var after := EvaluateAll(repo, names, mode, luck).0; other in after.lanes && after.lanes[other] == repo.lanes[other]
    decreases |names|
  {
    hide Evaluate;
    if names != [] {
      var n := |names| - 1;
      LaneUntouched(repo, names[..n], mode, luck, other);
      var mid := EvaluateAll(repo, names[..n], mode, luck).0;
      if names[n] in mid.lanes {
        OtherLanesStay(mid, names[n], mode, luck(names[n]), other);
      }
    }
  }

  lemma StillThere(repo: Repo, names: seq<string>, i: nat, mode: Mode, luck: string -> Luck)
    requires Distinct(names) && AllPresent(repo, names) && i < |names|
    ensures names[i] in EvaluateAll(repo, names[..i], mode, luck).0.lanes
    ensures EvaluateAll(repo, names[..i], mode, luck).0.lanes[names[i]] == repo.lanes[names[i]]
  {
    LaneUntouched(repo, names[..i], mode, luck, names[i]);
  }
}
