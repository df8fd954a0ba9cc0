/** Text-splicing edits of one section, and what a re-parse of the edited text gives. */
module Edits {
  import opened Text
  import opened MarkdownFence
  import opened Outline
  import opened Sections
  import opened Splice

  /** Facts about the section at index `k` of the list that the slices below rely on. */
  lemma SectionBounds(text: string, k: nat)
    requires k < |SectionsOf(text)|
    ensures var s := SectionsOf(text)[k];
      && s.end <= |text| && s.start <= |text| && 1 <= s.line <= |SplitLines(text)| + 1
      && (k == 0 <==> s.level == 0)
  {
    hide OutlineOf, SectionsOf, Off, SplitLines, EndIdx;
    var d := OutlineOf(text);
    PreambleIs(text);
    OffInText(text);
    if k > 0 {
      SectionsAre(text, k - 1);
      UptoHead(text, k - 1);
      BlockLevelPositive(text, k - 1);
    }
  }

  /** Removes the heading line and the body; for the preamble only the body. */
  function DeleteAt(text: string, sec: Section): string
    requires sec.end <= |text| && 1 <= sec.line <= |SplitLines(text)| + 1
  {
    if sec.level == 0 then text[sec.end..]
    else
      var lines := SplitLines(text);
      CutAt(text, sec.line - 1);
      text[..Upto(lines, sec.line - 1)] + text[sec.end..]
  }

  function DeleteSection(text: string, k: nat): string
    requires k < |SectionsOf(text)|
  {
    SectionBounds(text, k);
    DeleteAt(text, SectionsOf(text)[k])
  }

  /** How many blocks section `k` spans with its descendants. */
  function SubtreeEnd(text: string, k: nat): (r: nat)
    requires 1 <= k < |SectionsOf(text)|
    ensures k < r <= |SectionsOf(text)|
  {
    PreambleIs(text);
    EndIdx(OutlineOf(text).blocks, k - 1) + 1
  }

  /** The descendants of a section are the following ones that are deeper. */
  lemma SubtreeIsDeeper(text: string, k: nat)
    requires 1 <= k < |SectionsOf(text)|
    ensures var secs, m := SectionsOf(text), SubtreeEnd(text, k);
      && (forall t :: k < t < m ==> secs[t].level > secs[k].level)
      && (m < |secs| ==> secs[m].level <= secs[k].level)
  {
    hide OutlineOf, SectionsOf, Off, HeadAt, SlashJoin, StackAt;
    PreambleIs(text);
    forall t | 1 <= t < |SectionsOf(text)| ensures SectionsOf(text)[t].level == OutlineOf(text).blocks[t - 1].level {
      SectionsAre(text, t - 1);
    }
  }

  lemma OutlineOfLines(text: string, d: Doc)
    requires SplitLines(text) == LinesOf(d) && DocOk(d)
    ensures OutlineOf(text) == d
  {
    hide DocOk, LinesOf, SplitLines, OutlineFrom;
    OutlineRoundTrip(d);
  }

  lemma BlocksOkSplice(a: seq<Block>, b: seq<Block>)
    requires BlocksOk(a) && BlocksOk(b) && (a != [] && b != [] ==> Balanced(a[|a| - 1].body))
    ensures BlocksOk(a + b)
  {
    hide BlockOk, Balanced;
    forall k | 0 <= k < |a + b| - 1 ensures Balanced((a + b)[k].body) {
      if k >= |a| {
        assert (a + b)[k] == b[k - |a|];
      }
    }
  }

  lemma BlocksOkSlice(blocks: seq<Block>, i: nat, j: nat)
    requires BlocksOk(blocks) && i <= j <= |blocks|
    ensures BlocksOk(blocks[i..j])
    ensures i < j < |blocks| ==> Balanced(blocks[j - 1].body)
  {
    hide BlockOk, Balanced;
    forall k | 0 <= k < j - i - 1 ensures Balanced(blocks[i..j][k].body) {
      assert blocks[i..j][k] == blocks[i + k];
    }
  }

  /** A text whose next part starts with a heading, or is empty, can be cut there. */
  lemma HeadSeam(a: seq<string>, blocks: seq<Block>)
    requires GoodLines(a) && (a != [] && blocks != [] ==> Terminated(a[|a| - 1])) && BlocksOk(blocks)
    ensures Seam(Join(a), Join(BlockLines(blocks)))
  {
    if a != [] && blocks != [] {
      var rest := Join(BlockLines(blocks));
      assert BlockOk(blocks[0]);
      HeadNonEmpty(blocks[0]);
      assert rest != "" && rest[0] == '#';
      JoinLast(a);
    }
  }

  lemma {:induction false} JoinLast(a: seq<string>)
    requires GoodLines(a) && a != []
    ensures Join(a) != "" && Join(a)[|Join(a)| - 1] == a[|a| - 1][|a[|a| - 1]| - 1]
  {
    var n := |a| - 1;
    assert a == a[..n] + [a[n]];
    JoinConcat(a[..n], [a[n]]);
    assert Join([a[n]]) == a[n];
    assert OneLine(a[n]);
  }

  /* ---------- delete ---------- */

  function DeleteEdit(text: string, k: nat): Edit
    requires 1 <= k < |SectionsOf(text)|
  {
    PreambleIs(text);
    var d := OutlineOf(text);
    var i, j := k - 1, EndIdx(OutlineOf(text).blocks, k - 1);
    Edit(Off(d, i), Off(d, j), Off(d, i), HeadAt(d, j), HeadAt(d, i))
  }

  /** Deleting a section deletes exactly its blocks. */
  lemma DeleteOutline(text: string, k: nat)
    requires 1 <= k < |SectionsOf(text)|
    ensures var d, i := OutlineOf(text), k - 1;
      i < |d.blocks| && OutlineOf(DeleteSection(text, k)) == Doc(d.pre, d.blocks[..i] + d.blocks[EndIdx(d.blocks, i)..])
  {
    hide OutlineOf, SectionsOf, Off, SplitLines, DocOk, LinesOf, Seam, EndIdx, DeleteSection;
    PreambleIs(text);
    var d, i := OutlineOf(text), k - 1;
    var j := EndIdx(d.blocks, i);
    DeleteText(text, k);
    DeleteSeam(text, i, j);
    SplitSeam(text[..Off(d, i)], text[Off(d, j)..]);
    OffCut(text, i);
    OffCut(text, j);
    TextOfOutline(text);
    CutDoc(d, i, j);
    OutlineOfLines(DeleteSection(text, k), Doc(d.pre, d.blocks[..i] + d.blocks[j..]));
  }

  lemma CutDoc(d: Doc, i: nat, j: nat)
    requires DocOk(d) && i <= j <= |d.blocks|
    ensures var d' := Doc(d.pre, d.blocks[..i] + d.blocks[j..]);
      DocOk(d') && LinesOf(d') == LinesBefore(d, i) + BlockLines(d.blocks[j..])
  {
    hide BlocksOk, Quiet, Balanced;
    BlockLinesConcat(d.blocks[..i], d.blocks[j..]);
    BlocksOkSlice(d.blocks, 0, i);
    BlocksOkSlice(d.blocks, j, |d.blocks|);
    assert d.blocks[j..|d.blocks|] == d.blocks[j..] && d.blocks[0..i] == d.blocks[..i];
    BlocksOkSplice(d.blocks[..i], d.blocks[j..]);
  }

  lemma DeleteText(text: string, k: nat)
    requires 1 <= k < |SectionsOf(text)|
    ensures var d, i := OutlineOf(text), k - 1;
      && i < |d.blocks| && Off(d, i) <= |text| && Off(d, EndIdx(d.blocks, i)) <= |text|
      && DeleteSection(text, k) == text[..Off(d, i)] + text[Off(d, EndIdx(d.blocks, i))..]
  {
    hide OutlineOf, SectionsOf, Off, SplitLines, EndIdx, Upto, HeadAt;
    PreambleIs(text);
    OffInText(text);
    SectionsAre(text, k - 1);
    UptoHead(text, k - 1);
    SectionBounds(text, k);
  }

  lemma DeleteSeam(text: string, i: nat, j: nat)
    requires i < j <= |OutlineOf(text).blocks|
    ensures var d := OutlineOf(text);
      Off(d, i) <= |text| && Off(d, j) <= |text| && Seam(text[..Off(d, i)], text[Off(d, j)..])
  {
    hide OutlineOf, Off, SplitLines, BlocksOk, Seam, Join, GoodLines, Quiet, Balanced;
    var d := OutlineOf(text);
    TextOfOutline(text);
    OffCut(text, i);
    OffCut(text, j);
    BlocksOkSlice(d.blocks, j, |d.blocks|);
    assert d.blocks[j..|d.blocks|] == d.blocks[j..];
    BeforeHeadTerminated(text, i);
    HeadSeam(LinesBefore(d, i), d.blocks[j..]);
  }

  /** The lines before a heading line all end in a break. */
  lemma BeforeHeadTerminated(text: string, i: nat)
    requires i < |OutlineOf(text).blocks|
    ensures var before := LinesBefore(OutlineOf(text), i);
      GoodLines(before) && (before != [] ==> Terminated(before[|before| - 1]))
  {
    hide OutlineOf, SplitLines, GoodLines, Terminated;
    var before, lines := LinesBefore(OutlineOf(text), i), SplitLines(text);
    UptoHead(text, i);
    SplitGood(text);
    GoodSlice(lines, 0, |before|);
    assert lines[0..|before|] == lines[..|before|] == before;
    assert BlockLines(OutlineOf(text).blocks[i..]) != [];
    if before != [] {
      LineTerminated(lines, |before| - 1);
      assert before[|before| - 1] == lines[|before| - 1];
    }
  }

  lemma LineTerminated(lines: seq<string>, k: nat)
    requires GoodLines(lines) && k < |lines| - 1
    ensures Terminated(lines[k])
  {
    assert Seam(lines[k], lines[k + 1]) && OneLine(lines[k]) && OneLine(lines[k + 1]);
  }

  lemma SubtreeCuttable(blocks: seq<Block>, i: nat)
    requires i < |blocks|
    ensures Cuttable(blocks, i, EndIdx(blocks, i)) && Cuttable(blocks, i + 1, EndIdx(blocks, i))
  {
    var j := EndIdx(blocks, i);
    assert forall t :: 0 <= t < i ==> EndIdx(blocks, t) <= i || EndIdx(blocks, t) >= j;
  }

  lemma DeleteSpliced(text: string, k: nat)
    requires 1 <= k < |SectionsOf(text)|
    ensures k - 1 < |OutlineOf(text).blocks|
    ensures Spliced(text, DeleteSection(text, k), k - 1, EndIdx(OutlineOf(text).blocks, k - 1), DeleteEdit(text, k))
  {
    hide OutlineOf, SectionsOf, EndIdx, DeleteSection, Join, BlockLines, Cuttable;
    PreambleIs(text);
    var text' := DeleteSection(text, k);
    var d, i := OutlineOf(text), k - 1;
    var j := EndIdx(d.blocks, i);
    DeleteOutline(text, k);
    DeleteText(text, k);
    SubtreeCuttable(d.blocks, i);
    OffMonotone(text, i, j);
    var d' := OutlineOf(text');
    assert d'.blocks[i..] == d.blocks[j..];
    forall t | 0 <= t <= i ensures Off(d', t) == Off(d, t) && HeadAt(d', t) == HeadAt(d, t) {
      assert d'.blocks[..t] == d.blocks[..t];
    }
    assert text'[Off(d, i)..] == text[Off(d, j)..];
  }

  /** No earlier heading looks for its newline inside the cut, or nothing follows the cut. */
  predicate CutClean(text: string, k: nat)
    requires 1 <= k < |SectionsOf(text)|
  {
    var secs, e := SectionsOf(text), DeleteEdit(text, k);
    secs[k].end == |text| || forall t :: 1 <= t < k ==> !(e.from < secs[t].start <= e.to)
  }

  /** The start of an earlier section survives the cut exactly when its newline does. */
  lemma StartAcrossCut(a: string, mid: string, b: string, o: nat, e: Edit)
    requires o < |a| && mid != "" && e.from == |a| == e.at && e.to == |a + mid|
    ensures var was, now := AfterNewline(a + mid + b, o), AfterNewline(a + b, o);
      now == MovedStart(e, was) <==> b == "" || !(e.from < was <= e.to)
  {
    assert a + mid + b == a + (mid + b);
    AfterNewlineConcat(a, mid + b, o);
    AfterNewlineConcat(mid, b, 0);
    AfterNewlineConcat(a, b, o);
    AfterNewlineIs(a, o);
    AfterNewlineIs(mid, 0);
    AfterNewlinePositive(b);
  }

  lemma AfterNewlinePositive(b: string)
    ensures AfterNewline(b, 0) == 0 <==> b == ""
  {
  }

  lemma DeletedHead(text: string, k: nat, t: nat)
    requires 1 <= k < |SectionsOf(text)| && t < k - 1
    ensures var secs, secs', e := SectionsOf(text), SectionsOf(DeleteSection(text, k)), DeleteEdit(text, k);
      && t + 1 < |secs'|
      && (secs'[t + 1] == Moved(e, secs[t + 1]) <==>
          secs[k].end == |text| || !(e.from < secs[t + 1].start <= e.to))
  {
    hide OutlineOf, SectionsOf, Off, HeadAt, EndIdx, DeleteSection, Spliced, Tracks, Moved, MovedStart, AfterNewline, StackAt, SlashJoin;
    var text', e := DeleteSection(text, k), DeleteEdit(text, k);
    var d, i := OutlineOf(text), k - 1;
    DeleteSpliced(text, k);
    var j := EndIdx(d.blocks, i);
    HeadTracks(text, text', i, j, e, t);
    TracksMoved(text, t, text', t, e);
    SectionsAre(text, t);
    SectionsAre(text, i);
    DeleteText(text, k);
    OffMonotone(text, t, i);
    OffMonotone(text, i, j);
    var a, mid, b := text[..e.from], text[e.from..e.to], text[e.to..];
    assert a + mid + b == text && a + b == text';
    StartAcrossCut(a, mid, b, Off(d, t), e);
  }

  lemma DeletedPreamble(text: string, k: nat)
    requires 1 <= k < |SectionsOf(text)|
    ensures var secs, secs' := SectionsOf(text), SectionsOf(DeleteSection(text, k));
      |secs'| > 0 && secs'[0] == Moved(DeleteEdit(text, k), secs[0])
      && |secs'| == |secs| - SubtreeEnd(text, k) + k
  {
    hide OutlineOf, SectionsOf, HeadAt, EndIdx, DeleteSection, Join;
    DeleteOutline(text, k);
    PreambleIs(text);
    PreambleIs(DeleteSection(text, k));
    var d, d' := OutlineOf(text), OutlineOf(DeleteSection(text, k));
    assert d'.blocks[..0] == d.blocks[..0];
    OffMonotone(text, 0, k - 1);
    OffMonotone(text, k - 1, EndIdx(d.blocks, k - 1));
  }

  /**
   * Re-parsing after a delete gives exactly the old list without the section and its descendants: same
   * headings, levels and paths, later offsets and lines shifted by the cut. It does so exactly when no
   * earlier heading line, ended by something else than "\n", finds its newline inside the cut.
   */
  lemma DeleteReparse(text: string, k: nat)
    requires 1 <= k < |SectionsOf(text)|
    ensures var secs := SectionsOf(text);
      SectionsOf(DeleteSection(text, k)) == AllMoved(DeleteEdit(text, k), secs[..k] + secs[SubtreeEnd(text, k)..])
      <==> CutClean(text, k)
  {
    hide OutlineOf, SectionsOf, DeleteSection, Moved, Spliced, EndIdx;
    var secs, e, m := SectionsOf(text), DeleteEdit(text, k), SubtreeEnd(text, k);
    var secs' := SectionsOf(DeleteSection(text, k));
    var kept := secs[..k] + secs[m..];
    PreambleIs(text);
    DeletedPreamble(text, k);
    DeleteSpliced(text, k);
    forall t | k <= t < |kept| ensures secs'[t] == Moved(e, kept[t]) {
      MovedTail(text, DeleteSection(text, k), k - 1, m - 1, e, t - k);
      assert kept[t] == secs[m + (t - k)];
    }
    forall t | 1 <= t < k
      ensures secs'[t] == Moved(e, kept[t]) <==> secs[k].end == |text| || !(e.from < secs[t].start <= e.to)
    {
      DeletedHead(text, k, t - 1);
    }
    var moved := AllMoved(e, kept);
    if CutClean(text, k) {
      assert forall t :: 0 <= t < |kept| ==> secs'[t] == moved[t];
    } else {
      var t :| 1 <= t < k && e.from < secs[t].start <= e.to;
      assert secs'[t] != moved[t];
    }
  }
}
