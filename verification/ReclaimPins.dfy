/** Which lanes go, in terms of the lane and the replies; and which ref each of them gets. */
module ReclaimPins {
  import opened Text
  import opened Reclaim
  import opened ReclaimRuns

  /* ---------- the gates ---------- */

  /** A checked, clean working tree. */
  predicate Clean(lane: Lane, luck: Luck) {
    luck.statusOk && lane.work == None
  }

  predicate Shielded(t: string, mode: Mode) {
    t == "11767" || t == "20793" || t in mode.live
  }

  /** Why the lane of thread `t` is not touched: the first that applies, in this order. */
  lemma GateReasons(t: string, lane: Lane, mode: Mode, luck: Luck)
    ensures var gate := Gate("lane-" + t, lane, mode, luck);
      && (gate == Some(Protected) <==> t == "11767" || t == "20793")
      && (gate == Some(LiveDispatch) <==> t != "11767" && t != "20793" && !mode.unavailable && t in mode.live)
      && (gate == Some(Young) <==> !Shielded(t, mode) && !mode.unavailable && luck.young)
      && (gate == Some(LedgerUnavailable) <==>
            t != "11767" && t != "20793" && (mode.unavailable || (t !in mode.live && !luck.young && luck.blocking == LookupFailed)))
      && (gate == Some(LedgerNonTerminal) <==> !Shielded(t, mode) && !mode.unavailable && !luck.young && luck.blocking == NonTerminal)
      && (gate == Some(BranchMismatch) <==>
            Open(t, mode, luck) && !luck.contained && (!mode.reclaimMismatch || !mode.execute))
      && (gate == Some(MismatchDirty) <==>
            Open(t, mode, luck) && !luck.contained && mode.reclaimMismatch && mode.execute && !Clean(lane, luck))
      && (gate == None <==>
            Open(t, mode, luck) && (luck.contained || (mode.reclaimMismatch && mode.execute && Clean(lane, luck))))
  {
    LaneThread(t);
    ProtectedAre(t);
    hide ThreadOf, ProtectedThread;
  }

  /** Not shielded, old enough, and the ledger knows of no dispatch under way. */
  predicate Open(t: string, mode: Mode, luck: Luck) {
    !Shielded(t, mode) && !mode.unavailable && !luck.young && luck.blocking == Clear
  }

  /** HEAD can be read and pinned; a dirty tree must be committed first. */
  predicate Pinnable(lane: Lane, luck: Luck) {
    && luck.headOk && luck.refOk
    && if Clean(lane, luck) then lane.head.Some?
       else luck.commitOk && (if luck.addOk then lane.work.Some? else lane.staged.Some?)
  }

  /** A lane is removed exactly when it is open, executing, on its branch or cleared for a mismatch, pinned, and git removes it. */
  lemma RemovedIff(repo: Repo, t: string, mode: Mode, luck: Luck)
    requires "lane-" + t in repo.lanes
    ensures var lane := repo.lanes["lane-" + t];
      Evaluate(repo, "lane-" + t, mode, luck).1.removed <==>
        && mode.execute && Open(t, mode, luck) && (luck.contained || (mode.reclaimMismatch && Clean(lane, luck)))
        && Pinnable(lane, luck) && luck.removeOk
  {
    hide Gate, WipRef, Open;
    GateReasons(t, repo.lanes["lane-" + t], mode, luck);
  }

  /* ---------- refs ---------- */

  predicate Plain(c: char) {
    'a' <= c <= 'z' || 'A' <= c <= 'Z' || '0' <= c <= '9' || c == '.' || c == '_' || c == '-'
  }

  predicate SafeText(s: string) {
    forall i :: 0 <= i < |s| ==> Plain(s[i])
  }

  predicate DotPair(s: string, i: nat) {
    i + 1 < |s| && s[i] == '.' && s[i + 1] == '.'
  }

  predicate NoDotPair(s: string) {
    forall i :: 0 <= i < |s| ==> !DotPair(s, i)
  }

  lemma DotsIff(s: string)
    ensures HasDots(s) <==> !NoDotPair(s)
  {
    if HasDots(s) {
      var i :| 0 <= i < |s| - 1 && s[i] == '.' && s[i + 1] == '.';
      assert DotPair(s, i);
    }
    if i :| 0 <= i < |s| && DotPair(s, i) {
      assert s[i] == '.' && s[i + 1] == '.';
    }
  }

  lemma {:induction false} CleanAt(s: string, i: nat)
    requires i < |s|
    ensures CleanChars(s)[i] == if Plain(s[i]) then s[i] else '_'
  {
    if i > 0 {
      CleanAt(s[1..], i - 1);
    }
  }

  /** A safe name without two dots in a row is its own suffix. */
  lemma SafeNamesKept(lane: string)
    requires lane != "" && SafeText(lane) && NoDotPair(lane)
    ensures WipRef(lane) == "refs/giw-wip/" + lane
  {
    forall i | 0 <= i < |lane| ensures CleanChars(lane)[i] == lane[i] {
      CleanAt(lane, i);
    }
    assert CleanChars(lane) == lane;
    DotsIff(lane);
  }

  /** Without two dots in a row, every other character becomes an underscore in its place. */
  lemma OtherCharsReplaced(lane: string)
    requires lane != "" && NoDotPair(lane)
    ensures var suffix := SanitizeSuffix(lane);
      |suffix| == |lane| && forall i :: 0 <= i < |lane| ==> suffix[i] == if Plain(lane[i]) then lane[i] else '_'
  {
    var s := CleanChars(lane);
    forall i | 0 <= i < |lane| ensures s[i] == if Plain(lane[i]) then lane[i] else '_' {
      CleanAt(lane, i);
    }
    forall i | 0 <= i < |s| ensures !DotPair(s, i) {
      assert !DotPair(lane, i);
      assert i + 1 < |s| ==> s[i + 1] == if Plain(lane[i + 1]) then lane[i + 1] else '_';
    }
    DotsIff(s);
  }

  lemma TailNoPair(s: string)
    requires s != "" && NoDotPair(s)
    ensures NoDotPair(s[1..])
  {
    forall i | 0 <= i < |s[1..]| ensures !DotPair(s[1..], i) {
      assert !DotPair(s, i + 1);
    }
  }

  /** Two dots become one underscore, the leftmost first. */
  lemma {:induction false} DotsReplaced(a: string, b: string)
    requires NoDotPair(a + ".")
    ensures ReplaceDots(a + ".." + b) == a + "_" + ReplaceDots(b)
  {
    var s := a + ".." + b;
    if a == "" {
      assert s[2..] == b;
    } else {
      assert s[1..] == a[1..] + ".." + b;
      assert !DotPair(a + ".", 0);
      assert s[0] == (a + ".")[0] && s[1] == (a + ".")[1];
      assert a[1..] + "." == (a + ".")[1..];
      TailNoPair(a + ".");
      hide NoDotPair, DotPair;
      DotsReplaced(a[1..], b);
      assert a == [a[0]] + a[1..];
    }
  }

  /** And without a pair of dots nothing is replaced. */
  lemma {:induction false} DotsKept(s: string)
    requires NoDotPair(s)
    ensures ReplaceDots(s) == s
  {
    if |s| >= 2 {
      assert !DotPair(s, 0);
      TailNoPair(s);
      DotsKept(s[1..]);
    }
  }

  /* ---------- the snapshot ---------- */

  /** What a snapshot commit leaves: all the work on top of HEAD and a clean tree, or only what was staged when the add failed. */
  lemma SnapshotHolds(lane: Lane, luck: Luck)
    ensures var after := Committed(lane, luck);
      && (after.Some? <==> luck.commitOk && (if luck.addOk then lane.work.Some? else lane.staged.Some?))
      && (after.Some? && luck.addOk ==> after.value == Lane(Some(Snapshot(lane.head, lane.work.value)), None, None))
      && (after.Some? && !luck.addOk ==> after.value == Lane(Some(Snapshot(lane.head, lane.staged.value)), lane.work, None))
  {
  }
}
