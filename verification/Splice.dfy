/** What cutting a run of blocks out of an outline does to levels, paths and offsets. */
module Splice {
  import opened Text
  import opened MarkdownFence
  import opened Outline
  import opened Sections

  predicate SameHeads(a: seq<Block>, b: seq<Block>, k: nat) {
    && k <= |a| && k <= |b|
    && forall t :: 0 <= t < k ==> a[t].level == b[t].level && a[t].heading == b[t].heading
  }

  lemma {:induction false} StackSame(a: seq<Block>, b: seq<Block>, k: nat)
    requires SameHeads(a, b, k)
    ensures StackAt(a, k) == StackAt(b, k)
  {
    hide Pop, Escape;
    if k > 0 {
      StackSame(a, b, k - 1);
    }
  }

  /** Blocks `a` to `j` can go: the heading at `j` closes all of them, and nothing before ends among them. */
  predicate Cuttable(blocks: seq<Block>, a: nat, j: nat) {
    && a <= j <= |blocks|
    && (j < |blocks| ==> forall u :: a <= u < j ==> blocks[u].level >= blocks[j].level)
    && forall t :: 0 <= t < a ==> EndIdx(blocks, t) <= a || EndIdx(blocks, t) >= j
  }

  /** `rest` keeps the heads before `a` and, from `a` on, the very blocks that followed the cut. */
  predicate CutTo(blocks: seq<Block>, a: nat, j: nat, rest: seq<Block>) {
    a <= j <= |blocks| && Cuttable(blocks, a, j) && SameHeads(blocks, rest, a) && rest[a..] == blocks[j..]
  }

  /* ---------- paths ---------- */

  lemma {:induction false} PopPop(stack: seq<Frame>, high: nat, low: nat)
    requires low <= high
    ensures Pop(Pop(stack, high), low) == Pop(stack, low)
  {
    if stack != [] && stack[|stack| - 1].level >= high {
      PopPop(stack[..|stack| - 1], high, low);
    }
  }

  lemma PopPush(stack: seq<Frame>, b: Block, low: nat)
    requires low <= b.level
    ensures Pop(Push(stack, b), low) == Pop(stack, low)
  {
    hide Escape;
    var popped := Pop(stack, b.level);
    PopPop(stack, b.level, low);
    assert Push(stack, b)[..|popped|] == popped;
  }

  lemma {:induction false} PopOverRun(blocks: seq<Block>, a: nat, j: nat, low: nat)
    requires a <= j <= |blocks| && forall u :: a <= u < j ==> blocks[u].level >= low
    ensures Pop(StackAt(blocks, j), low) == Pop(StackAt(blocks, a), low)
    decreases j
  {
    hide Push, Pop;
    if a < j {
      PopOverRun(blocks, a, j - 1, low);
      PopPush(StackAt(blocks, j - 1), blocks[j - 1], low);
    }
  }

  /** After the cut every later heading sees the path stack it saw before. */
  lemma {:induction false} StackAfterCut(blocks: seq<Block>, a: nat, j: nat, rest: seq<Block>, u: nat)
    requires CutTo(blocks, a, j, rest) && 0 < u <= |blocks| - j
    ensures StackAt(rest, a + u) == StackAt(blocks, j + u)
  {
    hide Pop, EndIdx;
    assert rest[a + u - 1] == rest[a..][u - 1] == blocks[j + u - 1];
    if u == 1 {
      StackSame(blocks, rest, a);
      PopOverRun(blocks, a, j, blocks[j].level);
    } else {
      StackAfterCut(blocks, a, j, rest, u - 1);
    }
  }

  /* ---------- ends ---------- */

  lemma {:induction false} NextSame(a: seq<Block>, b: seq<Block>, k: nat, level: nat, s: nat)
    requires SameHeads(a, b, k) && s <= k
    ensures NextAtMost(a, level, s) < k || NextAtMost(b, level, s) < k ==> NextAtMost(a, level, s) == NextAtMost(b, level, s)
    decreases k - s
  {
    if s < k && a[s].level > level {
      NextSame(a, b, k, level, s + 1);
    }
  }

  lemma {:induction false} NextFrom(blocks: seq<Block>, level: nat, s: nat, m: nat)
    requires s <= |blocks| && s <= m <= NextAtMost(blocks, level, s)
    ensures NextAtMost(blocks, level, s) == NextAtMost(blocks, level, m)
    decreases m - s
  {
    if s < m {
      NextFrom(blocks, level, s + 1, m);
    }
  }

  lemma {:induction false} NextShift(blocks: seq<Block>, rest: seq<Block>, a: nat, j: nat, level: nat, u: nat)
    requires a <= |rest| && j <= |blocks| && rest[a..] == blocks[j..] && u <= |blocks| - j
    ensures NextAtMost(rest, level, a + u) - a == NextAtMost(blocks, level, j + u) - j
    decreases |blocks| - j - u
  {
    assert |rest[a..]| == |blocks[j..]|;
    if u < |blocks| - j {
      assert rest[a + u] == rest[a..][u] == blocks[j..][u];
      NextShift(blocks, rest, a, j, level, u + 1);
    }
  }

  /** Where a kept section ends after the cut. */
  lemma EndAfterCut(blocks: seq<Block>, a: nat, j: nat, rest: seq<Block>, t: nat)
    requires CutTo(blocks, a, j, rest) && t < a
    ensures var e := EndIdx(blocks, t);
      EndIdx(rest, t) == if e <= a then e else e - j + a
  {
    hide NextAtMost;
    var level := blocks[t].level;
    var e := EndIdx(blocks, t);
    NextSame(blocks, rest, a, level, t + 1);
    NextFrom(rest, level, t + 1, if EndIdx(rest, t) < a then EndIdx(rest, t) else a);
    NextShift(blocks, rest, a, j, level, 0);
    if e >= j {
      NextFrom(blocks, level, t + 1, j);
    } else if e == a {
      assert j < |blocks| ==> blocks[j].level <= level;
    }
  }

  lemma EndInTail(blocks: seq<Block>, a: nat, j: nat, rest: seq<Block>, u: nat)
    requires CutTo(blocks, a, j, rest) && u < |blocks| - j
    ensures a + u < |rest| && EndIdx(rest, a + u) - a == EndIdx(blocks, j + u) - j
  {
    assert |rest[a..]| == |blocks[j..]|;
    assert rest[a + u] == rest[a..][u] == blocks[j..][u];
    NextShift(blocks, rest, a, j, blocks[j + u].level, u + 1);
  }

  /* ---------- offsets ---------- */

  lemma OffInTail(d: Doc, j: nat, e: Doc, a: nat, u: nat)
    requires j <= |d.blocks| && a <= |e.blocks| && e.blocks[a..] == d.blocks[j..] && u <= |d.blocks| - j
    ensures |e.blocks| - a == |d.blocks| - j
    ensures Off(e, a + u) - Off(e, a) == Off(d, j + u) - Off(d, j)
    ensures HeadAt(e, a + u) - HeadAt(e, a) == HeadAt(d, j + u) - HeadAt(d, j)
  {
    hide Join, BlockLines;
    assert |e.blocks[a..]| == |d.blocks[j..]|;
    assert e.blocks[a..a + u] == e.blocks[a..][..u] == d.blocks[j..][..u] == d.blocks[j..j + u];
    LinesBeforeStep(d, j, j + u);
    LinesBeforeStep(e, a, a + u);
    JoinConcat(LinesBefore(d, j), BlockLines(d.blocks[j..j + u]));
    JoinConcat(LinesBefore(e, a), BlockLines(e.blocks[a..a + u]));
  }

  /* ---------- the search for a newline ---------- */

  predicate HasNl(s: string, from: nat) {
    exists i :: from <= i < |s| && s[i] == '\n'
  }

  lemma {:induction false} AfterNewlineAt(s: string, from: nat, i: nat)
    requires from <= i < |s| && s[i] == '\n' && forall t :: from <= t < i ==> s[t] != '\n'
    ensures AfterNewline(s, from) == i + 1
    decreases i - from
  {
    if from < i {
      AfterNewlineAt(s, from + 1, i);
    }
  }

  lemma {:induction false} AfterNewlineIs(s: string, from: nat)
    requires from <= |s|
    ensures if HasNl(s, from)
      then from < AfterNewline(s, from) && s[AfterNewline(s, from) - 1] == '\n'
           && forall t :: from <= t < AfterNewline(s, from) - 1 ==> s[t] != '\n'
      else AfterNewline(s, from) == |s|
    decreases |s| - from
  {
    if from < |s| && s[from] != '\n' {
      AfterNewlineIs(s, from + 1);
      assert HasNl(s, from) ==> HasNl(s, from + 1);
    }
  }

  lemma {:induction false} AfterNewlineConcat(a: string, b: string, from: nat)
    requires from <= |a|
    ensures AfterNewline(a + b, from) == if HasNl(a, from) then AfterNewline(a, from) else |a| + AfterNewline(b, 0)
    decreases |a| - from
  {
    if from == |a| {
      AfterNewlineShift(a, b, 0);
    } else if a[from] != '\n' {
      AfterNewlineConcat(a, b, from + 1);
      assert HasNl(a, from) <==> HasNl(a, from + 1) by {
        if HasNl(a, from) {
          var i :| from <= i < |a| && a[i] == '\n';
          assert from + 1 <= i;
        }
      }
    }
  }

  lemma {:induction false} AfterNewlineShift(a: string, b: string, from: nat)
    requires from <= |b|
    ensures AfterNewline(a + b, |a| + from) == |a| + AfterNewline(b, from)
    decreases |b| - from
  {
    if from < |b| && b[from] != '\n' {
      AfterNewlineShift(a, b, from + 1);
    }
  }

  /* ---------- section lists across a splice ---------- */

  /** Text up to `to` becomes text up to `at`; text up to `from` is untouched. Lines likewise. */
  datatype Edit = Edit(from: nat, to: nat, at: nat, lineTo: nat, lineAt: nat)

  function MovedStart(e: Edit, o: nat): nat {
    if o <= e.from then o else if o < e.to then e.at else o - e.to + e.at
  }

  function MovedEnd(e: Edit, o: nat): nat {
    if o < e.to then o else o - e.to + e.at
  }

  /** The section as the edit should leave it: same heading, level and path, shifted position. */
  function Moved(e: Edit, s: Section): Section {
    var line := if s.level == 0 || s.line <= e.lineTo then s.line else s.line - e.lineTo + e.lineAt;
    var start, end := MovedStart(e, s.start), MovedEnd(e, s.end);
    Section(s.heading, s.level, s.path, line, start, end, Span(start, end))
  }

  function AllMoved(e: Edit, secs: seq<Section>): seq<Section> {
    seq(|secs|, t requires 0 <= t < |secs| => Moved(e, secs[t]))
  }

  /** The situation every edit establishes before comparing the two section lists. */
  predicate Spliced(text: string, text': string, a: nat, j: nat, e: Edit) {
    var d, d' := OutlineOf(text), OutlineOf(text');
    && CutTo(d.blocks, a, j, d'.blocks)
    && e.from <= e.to == Off(d, j) && e.at == Off(d', a) && e.lineTo == HeadAt(d, j) && e.lineAt == HeadAt(d', a)
    && (forall t :: 0 <= t < a ==> Off(d', t) == Off(d, t) && HeadAt(d', t) == HeadAt(d, t))
    && (a < j && Off(d, a) < e.to && (exists t :: 0 <= t < a && EndIdx(d.blocks, t) == a) ==> e.at == Off(d, a))
    && e.from <= |text| && e.at <= |text'| && e.to <= |text|
    && text'[e.at..] == text[e.to..]
  }

  /** Block `k'` of the new text is block `k` of the old one, moved; its start is left open. */
  predicate Tracks(text: string, k: nat, text': string, k': nat, e: Edit) {
    var d, d' := OutlineOf(text), OutlineOf(text');
    && k < |d.blocks| && k' < |d'.blocks|
    && d'.blocks[k'].heading == d.blocks[k].heading && d'.blocks[k'].level == d.blocks[k].level > 0
    && StackAt(d'.blocks, k' + 1) == StackAt(d.blocks, k + 1)
    && HeadAt(d', k') == (if HeadAt(d, k) < e.lineTo then HeadAt(d, k) else HeadAt(d, k) - e.lineTo + e.lineAt)
    && Off(d', EndIdx(d'.blocks, k')) == MovedEnd(e, Off(d, EndIdx(d.blocks, k)))
  }

  lemma TracksMoved(text: string, k: nat, text': string, k': nat, e: Edit)
    requires Tracks(text, k, text', k', e)
    ensures k < |OutlineOf(text).blocks| && k' < |OutlineOf(text').blocks|
    ensures Off(OutlineOf(text), k) <= |text| && Off(OutlineOf(text'), k') <= |text'|
    ensures |SectionsOf(text)| == |OutlineOf(text).blocks| + 1 && |SectionsOf(text')| == |OutlineOf(text').blocks| + 1
    ensures SectionsOf(text')[k' + 1] == Moved(e, SectionsOf(text)[k + 1]) <==>
      AfterNewline(text', Off(OutlineOf(text'), k')) == MovedStart(e, AfterNewline(text, Off(OutlineOf(text), k)))
  {
    hide OutlineOf, SectionsOf, Off, HeadAt, StackAt, SlashJoin, EndIdx, AfterNewline, MovedStart, MovedEnd;
    SectionsAre(text, k);
    SectionsAre(text', k');
  }

  lemma BlockLevelPositive(text: string, k: nat)
    requires k < |OutlineOf(text).blocks|
    ensures OutlineOf(text).blocks[k].level > 0
  {
    hide OutlineOf;
    TextOfOutline(text);
    assert BlockOk(OutlineOf(text).blocks[k]);
    HeadNonEmpty(OutlineOf(text).blocks[k]);
  }

  lemma TailOffsets(text: string, text': string, a: nat, j: nat, e: Edit, u: nat)
    requires Spliced(text, text', a, j, e) && u <= |OutlineOf(text).blocks| - j
    ensures |OutlineOf(text').blocks| - a == |OutlineOf(text).blocks| - j
    ensures e.to <= Off(OutlineOf(text), j + u) <= |text|
    ensures Off(OutlineOf(text'), a + u) == e.at + (Off(OutlineOf(text), j + u) - e.to)
    ensures e.lineTo <= HeadAt(OutlineOf(text), j + u)
    ensures HeadAt(OutlineOf(text'), a + u) == e.lineAt + (HeadAt(OutlineOf(text), j + u) - e.lineTo)
  {
    hide OutlineOf, Off, HeadAt, Cuttable, EndIdx;
    OffInTail(OutlineOf(text), j, OutlineOf(text'), a, u);
    OffMonotone(text, j, j + u);
    OffInText(text);
  }

  lemma TailTracks(text: string, text': string, a: nat, j: nat, e: Edit, u: nat)
    requires Spliced(text, text', a, j, e) && u < |OutlineOf(text).blocks| - j
    ensures Tracks(text, j + u, text', a + u, e)
  {
    hide OutlineOf, Off, HeadAt, StackAt, Cuttable, EndIdx, SameHeads;
    var d, d' := OutlineOf(text), OutlineOf(text');
    EndInTail(d.blocks, a, j, d'.blocks, u);
    TailOffsets(text, text', a, j, e, u);
    TailOffsets(text, text', a, j, e, EndIdx(d.blocks, j + u) - j);
    StackAfterCut(d.blocks, a, j, d'.blocks, u + 1);
    assert d'.blocks[a + u] == d'.blocks[a..][u] == d.blocks[j..][u];
    BlockLevelPositive(text, j + u);
  }

  lemma StartInTail(text: string, text': string, e: Edit, o: nat)
    requires e.from <= e.to <= o <= |text| && e.at <= |text'| && text'[e.at..] == text[e.to..]
    requires o < AfterNewline(text, o)
    ensures e.at + (o - e.to) <= |text'|
    ensures AfterNewline(text', e.at + (o - e.to)) == MovedStart(e, AfterNewline(text, o))
  {
    var tail := text[e.to..];
    assert |tail| == |text'| - e.at;
    assert text == text[..e.to] + tail && text' == text'[..e.at] + tail;
    hide AfterNewline;
    AfterNewlineShift(text[..e.to], tail, o - e.to);
    AfterNewlineShift(text'[..e.at], tail, o - e.to);
  }

  /** A body starts strictly after its heading line. */
  lemma StartAfterHead(text: string, k: nat)
    requires k < |OutlineOf(text).blocks|
    ensures var o := Off(OutlineOf(text), k); o < |text| && o < AfterNewline(text, o)
  {
    hide OutlineOf, Off;
    OffMonotone(text, k, k + 1);
    OffInText(text);
  }

  /** A section behind the splice moves with its text. */
  lemma MovedTail(text: string, text': string, a: nat, j: nat, e: Edit, u: nat)
    requires Spliced(text, text', a, j, e) && u < |OutlineOf(text).blocks| - j
    ensures |SectionsOf(text)| == |OutlineOf(text).blocks| + 1
    ensures |SectionsOf(text')| == |OutlineOf(text').blocks| + 1 == |SectionsOf(text)| - j + a
    ensures SectionsOf(text')[a + u + 1] == Moved(e, SectionsOf(text)[j + u + 1])
  {
    hide OutlineOf, SectionsOf, Off, HeadAt, CutTo, EndIdx, AfterNewline, Tracks, MovedStart, Moved;
    TailTracks(text, text', a, j, e, u);
    TailOffsets(text, text', a, j, e, u);
    TracksMoved(text, j + u, text', a + u, e);
    StartAfterHead(text, j + u);
    StartInTail(text, text', e, Off(OutlineOf(text), j + u));
  }

  lemma EndMoved(text: string, text': string, a: nat, j: nat, e: Edit, t: nat)
    requires Spliced(text, text', a, j, e) && t < a
    ensures var d, d' := OutlineOf(text), OutlineOf(text');
      Off(d', EndIdx(d'.blocks, t)) == MovedEnd(e, Off(d, EndIdx(d.blocks, t)))
  {
    hide OutlineOf, Off, HeadAt, EndIdx;
    var d, d' := OutlineOf(text), OutlineOf(text');
    EndAfterCut(d.blocks, a, j, d'.blocks, t);
    var x := EndIdx(d.blocks, t);
    if x < a {
      OffMonotone(text, x, j);
    } else if x >= j {
      OffInTail(d, j, d', a, x - j);
      OffMonotone(text, j, x);
    } else {
      OffMonotone(text, a, j);
    }
  }

  /** A section before the splice keeps its heading line; only its start still has to be checked. */
  lemma HeadTracks(text: string, text': string, a: nat, j: nat, e: Edit, t: nat)
    requires Spliced(text, text', a, j, e) && t < a
    ensures Tracks(text, t, text', t, e) && Off(OutlineOf(text'), t) == Off(OutlineOf(text), t)
  {
    hide OutlineOf, Off, HeadAt, StackAt, Cuttable, EndIdx;
    EndMoved(text, text', a, j, e, t);
    StackSame(OutlineOf(text).blocks, OutlineOf(text').blocks, t + 1);
    OffMonotone(text, t, j);
    BlockLevelPositive(text, t);
  }
}
