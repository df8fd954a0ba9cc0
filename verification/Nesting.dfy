/** The two nestings of a section list, by path stack and by range, are one and the same. */
module Nesting {
  import opened Text
  import opened Outline
  import opened Sections

  predicate Indices(blocks: seq<Block>, stack: seq<nat>) {
    forall s :: 0 <= s < |stack| ==> stack[s] < |blocks|
  }

  /** The path stack, kept as block indices. */
  function PopIdx(blocks: seq<Block>, stack: seq<nat>, level: nat): (r: seq<nat>)
    requires Indices(blocks, stack)
    ensures r <= stack
  {
    if stack != [] && blocks[stack[|stack| - 1]].level >= level
    then PopIdx(blocks, stack[..|stack| - 1], level) else stack
  }

  function StackIdx(blocks: seq<Block>, k: nat): (r: seq<nat>)
    requires k <= |blocks|
    ensures forall s :: 0 <= s < |r| ==> r[s] < k
  {
    if k == 0 then [] else PopIdx(blocks, StackIdx(blocks, k - 1), blocks[k - 1].level) + [k - 1]
  }

  /** The sections whose names precede the name of section `j` in its path. */
  function Ancestors(blocks: seq<Block>, j: nat): (r: seq<nat>)
    requires j < |blocks|
    ensures forall s :: 0 <= s < |r| ==> r[s] < j
  {
    PopIdx(blocks, StackIdx(blocks, j), blocks[j].level)
  }

  /** Positions and levels both grow from the bottom of the stack to its top. */
  predicate Rising(blocks: seq<Block>, stack: seq<nat>) {
    && Indices(blocks, stack)
    && forall s, t :: 0 <= s < t < |stack| ==> stack[s] < stack[t] && blocks[stack[s]].level < blocks[stack[t]].level
  }

  lemma {:induction false} PopIdxMember(blocks: seq<Block>, stack: seq<nat>, level: nat, i: nat)
    requires Rising(blocks, stack) && i < |blocks|
    ensures Rising(blocks, PopIdx(blocks, stack, level))
    ensures i in PopIdx(blocks, stack, level) <==> i in stack && blocks[i].level < level
  {
    if stack != [] {
      var n := |stack| - 1;
      var init := stack[..n];
      assert stack == init + [stack[n]];
      if blocks[stack[n]].level >= level {
        RisingFront(blocks, stack);
        hide Rising;
        PopIdxMember(blocks, init, level, i);
      } else if i in stack {
        TopIsDeepest(blocks, stack, i);
      }
    }
  }

  lemma RisingFront(blocks: seq<Block>, stack: seq<nat>)
    requires stack != [] && Rising(blocks, stack)
    ensures Rising(blocks, stack[..|stack| - 1])
  {
  }

  lemma TopIsDeepest(blocks: seq<Block>, stack: seq<nat>, i: nat)
    requires Rising(blocks, stack) && i in stack
    ensures i < |blocks| && blocks[i].level <= blocks[stack[|stack| - 1]].level
  {
    var s :| 0 <= s < |stack| && stack[s] == i;
  }

  lemma {:induction false} PopIdxTop(blocks: seq<Block>, stack: seq<nat>, level: nat)
    requires Indices(blocks, stack)
    ensures var r := PopIdx(blocks, stack, level); r != [] ==> blocks[r[|r| - 1]].level < level
  {
    if stack != [] && blocks[stack[|stack| - 1]].level >= level {
      PopIdxTop(blocks, stack[..|stack| - 1], level);
    }
  }

  lemma {:induction false} StackRising(blocks: seq<Block>, k: nat)
    requires k <= |blocks|
    ensures Rising(blocks, StackIdx(blocks, k))
  {
    hide PopIdx;
    if k > 0 {
      StackRising(blocks, k - 1);
      var popped := PopIdx(blocks, StackIdx(blocks, k - 1), blocks[k - 1].level);
      PopIdxMember(blocks, StackIdx(blocks, k - 1), blocks[k - 1].level, k - 1);
      PopIdxTop(blocks, StackIdx(blocks, k - 1), blocks[k - 1].level);
      RisingSnoc(blocks, popped, k - 1);
    }
  }

  lemma RisingSnoc(blocks: seq<Block>, stack: seq<nat>, k: nat)
    requires Rising(blocks, stack) && k < |blocks| && (forall s :: 0 <= s < |stack| ==> stack[s] < k)
    requires stack != [] ==> blocks[stack[|stack| - 1]].level < blocks[k].level
    ensures Rising(blocks, stack + [k])
  {
    var r, n := stack + [k], |stack|;
    forall s, t | 0 <= s < t < |r| ensures r[s] < r[t] && blocks[r[s]].level < blocks[r[t]].level {
      if t == n && s < n - 1 {
        assert blocks[stack[s]].level < blocks[stack[n - 1]].level;
      }
    }
  }

  /** On the stack after `k` headings: every later heading so far is deeper. */
  lemma {:induction false} StackMember(blocks: seq<Block>, k: nat, i: nat)
    requires k <= |blocks| && i < |blocks|
    ensures i in StackIdx(blocks, k) <==> i < k && k <= EndIdx(blocks, i)
  {
    hide PopIdx, NextAtMost, EndIdx;
    if k > 0 {
      StackMember(blocks, k - 1, i);
      StackRising(blocks, k - 1);
      PopIdxMember(blocks, StackIdx(blocks, k - 1), blocks[k - 1].level, i);
      if i < k - 1 { EndStep(blocks, i, k - 1); }
      EndAfter(blocks, i);
    }
  }

  lemma EndAfter(blocks: seq<Block>, i: nat)
    requires i < |blocks|
    ensures i < EndIdx(blocks, i)
  {
  }

  /** Section `i` reaches past block `k` exactly when it reaches `k` and block `k` is deeper. */
  lemma EndStep(blocks: seq<Block>, i: nat, k: nat)
    requires i < k < |blocks|
    ensures k + 1 <= EndIdx(blocks, i) <==> k <= EndIdx(blocks, i) && blocks[i].level < blocks[k].level
  {
    hide NextAtMost;
  }

  /** Section `i` is on the path stack of section `j` exactly when `j` starts before `i` ends. */
  lemma AncestorIffInside(blocks: seq<Block>, i: nat, j: nat)
    requires i < |blocks| && j < |blocks|
    ensures i in Ancestors(blocks, j) <==> i < j < EndIdx(blocks, i)
  {
    hide PopIdx, StackIdx;
    StackMember(blocks, j, i);
    StackRising(blocks, j);
    PopIdxMember(blocks, StackIdx(blocks, j), blocks[j].level, i);
  }

  function Frames(blocks: seq<Block>, stack: seq<nat>): seq<Frame>
    requires Indices(blocks, stack)
  {
    if stack == [] then []
    else
      var b := blocks[stack[|stack| - 1]];
      Frames(blocks, stack[..|stack| - 1]) + [Frame(b.level, Escape(b.heading))]
  }

  lemma {:induction false} PopFrames(blocks: seq<Block>, stack: seq<nat>, level: nat)
    requires Indices(blocks, stack)
    ensures Pop(Frames(blocks, stack), level) == Frames(blocks, PopIdx(blocks, stack, level))
  {
    hide Escape;
    if stack != [] {
      var n := |stack| - 1;
      var fs := Frames(blocks, stack);
      assert fs[..|fs| - 1] == Frames(blocks, stack[..n]);
      if blocks[stack[n]].level >= level {
        PopFrames(blocks, stack[..n], level);
      }
    }
  }

  lemma StackSteps(blocks: seq<Block>, k: nat)
    requires 0 < k <= |blocks|
    ensures var b := blocks[k - 1];
      && StackAt(blocks, k) == Pop(StackAt(blocks, k - 1), b.level) + [Frame(b.level, Escape(b.heading))]
      && StackIdx(blocks, k) == PopIdx(blocks, StackIdx(blocks, k - 1), b.level) + [k - 1]
  {
    hide Escape, Pop, PopIdx;
  }

  lemma NoStack(blocks: seq<Block>)
    ensures StackIdx(blocks, 0) == [] && StackAt(blocks, 0) == Frames(blocks, [])
  {
  }

  lemma {:induction false} StackIsIdx(blocks: seq<Block>, k: nat)
    requires k <= |blocks|
    ensures StackAt(blocks, k) == Frames(blocks, StackIdx(blocks, k))
  {
    hide Escape, Pop, PopIdx, Frames, StackAt, StackIdx;
    if k == 0 {
      NoStack(blocks);
    } else {
      StackIsIdx(blocks, k - 1);
      StackSteps(blocks, k);
      PopFrames(blocks, StackIdx(blocks, k - 1), blocks[k - 1].level);
      FramesSnoc(blocks, PopIdx(blocks, StackIdx(blocks, k - 1), blocks[k - 1].level), k - 1);
    }
  }

  lemma FramesSnoc(blocks: seq<Block>, stack: seq<nat>, i: nat)
    requires Indices(blocks, stack) && i < |blocks|
    ensures Indices(blocks, stack + [i])
    ensures Frames(blocks, stack + [i]) == Frames(blocks, stack) + [Frame(blocks[i].level, Escape(blocks[i].heading))]
  {
    hide Escape;
    assert (stack + [i])[..|stack|] == stack;
  }

  /** The path of a section spells its ancestors, outermost first, and then the section itself. */
  lemma PathSpellsAncestors(text: string, j: nat)
    requires j < |OutlineOf(text).blocks|
    ensures var blocks := OutlineOf(text).blocks;
      && Rising(blocks, Ancestors(blocks, j))
      && SectionsOf(text)[j + 1].path == SlashJoin(Frames(blocks, Ancestors(blocks, j) + [j]))
  {
    hide OutlineOf, SectionsOf, Off, SlashJoin, Frames, PopIdx, HeadAt, EndIdx, StackAt;
    var blocks := OutlineOf(text).blocks;
    SectionsAre(text, j);
    StackIsIdx(blocks, j + 1);
    StackRising(blocks, j);
    PopIdxMember(blocks, StackIdx(blocks, j), blocks[j].level, j);
  }

  /**
   * The two nestings agree: `i` is on the path stack of `j` exactly when the heading line of `j` lies in
   * the range of `i`; and any two ranges are nested or disjoint.
   */
  lemma NestingsAgree(text: string, i: nat, j: nat)
    requires i < j < |OutlineOf(text).blocks|
    ensures var d, secs := OutlineOf(text), SectionsOf(text);
      && (i in Ancestors(d.blocks, j) <==> Off(d, j) < secs[i + 1].end)
      && (secs[i + 1].end <= Off(d, j) || secs[j + 1].end <= secs[i + 1].end)
  {
    hide OutlineOf, SectionsOf, Off, HeadAt, SlashJoin, StackAt, Ancestors;
    var d := OutlineOf(text);
    SectionsAre(text, i);
    SectionsAre(text, j);
    AncestorIffInside(d.blocks, i, j);
    var ei, ej := EndIdx(d.blocks, i), EndIdx(d.blocks, j);
    if j < ei {
      OffMonotone(text, j, ei);
      assert ej <= ei;
      OffMonotone(text, ej, ei);
    } else {
      OffMonotone(text, ei, j);
    }
  }

  /* ---------- tiling ---------- */

  function Roots(blocks: seq<Block>, k: nat): (r: seq<nat>)
    requires k <= |blocks|
    ensures forall s :: 0 <= s < |r| ==> k <= r[s] < |blocks|
    decreases |blocks| - k
  {
    if k == |blocks| then []
    else (if Ancestors(blocks, k) == [] then [k] else []) + Roots(blocks, k + 1)
  }

  /** The text of section `i` with its heading line. */
  function Extent(text: string, i: nat): string
    requires i < |OutlineOf(text).blocks|
  {
    var d := OutlineOf(text);
    OffInText(text);
    var from, to := Off(d, i), Off(d, EndIdx(d.blocks, i));
    OffMonotone(text, i, EndIdx(d.blocks, i));
    text[from..to]
  }

  function Extents(text: string, ks: seq<nat>): seq<string>
    requires Indices(OutlineOf(text).blocks, ks)
  {
    if ks == [] then [] else [Extent(text, ks[0])] + Extents(text, ks[1..])
  }

  lemma {:induction false} SkipDescendants(blocks: seq<Block>, i: nat, k: nat)
    requires i < |blocks| && i < k <= EndIdx(blocks, i)
    ensures Roots(blocks, k) == Roots(blocks, EndIdx(blocks, i))
    decreases EndIdx(blocks, i) - k
  {
    hide Ancestors, EndIdx;
    if k < EndIdx(blocks, i) {
      AncestorIffInside(blocks, i, k);
      SkipDescendants(blocks, i, k + 1);
    }
  }

  lemma RootEndsAtRoot(blocks: seq<Block>, i: nat)
    requires i < |blocks| && Ancestors(blocks, i) == []
    ensures EndIdx(blocks, i) < |blocks| ==> Ancestors(blocks, EndIdx(blocks, i)) == []
  {
    hide Ancestors;
    var e := EndIdx(blocks, i);
    if e < |blocks| && Ancestors(blocks, e) != [] {
      var a := Ancestors(blocks, e)[0];
      AncestorIffInside(blocks, a, e);
      AncestorIffInside(blocks, a, i);
      AncestorIffInside(blocks, i, e);
    }
  }

  lemma {:induction false} TileFrom(text: string, k: nat)
    requires var blocks := OutlineOf(text).blocks;
      k <= |blocks| && (k < |blocks| ==> Ancestors(blocks, k) == [])
    ensures Off(OutlineOf(text), k) <= |text|
    ensures text[Off(OutlineOf(text), k)..] == Join(Extents(text, Roots(OutlineOf(text).blocks, k)))
    decreases |OutlineOf(text).blocks| - k
  {
    hide OutlineOf, Off, Ancestors, EndIdx;
    var d := OutlineOf(text);
    OffInText(text);
    OffEnd(text);
    if k < |d.blocks| {
      var e := EndIdx(d.blocks, k);
      OffMonotone(text, k, e);
      RootEndsAtRoot(d.blocks, k);
      TileFrom(text, e);
      SkipDescendants(d.blocks, k, k + 1);
      assert Roots(d.blocks, k) == [k] + Roots(d.blocks, e);
      assert text[Off(d, k)..] == text[Off(d, k)..Off(d, e)] + text[Off(d, e)..];
    }
  }

  lemma FirstIsRoot(blocks: seq<Block>)
    ensures blocks != [] ==> Ancestors(blocks, 0) == []
  {
  }

  /** The preamble followed by the root sections is the whole text, each character once and in order. */
  lemma RootsTileText(text: string)
    ensures var blocks, pre := OutlineOf(text).blocks, SectionsOf(text)[0];
      && pre.start == 0 && pre.end <= |text|
      && text == text[..pre.end] + Join(Extents(text, Roots(blocks, 0)))
  {
    hide OutlineOf, SectionsOf, Off, Extents, Roots;
    PreambleIs(text);
    FirstIsRoot(OutlineOf(text).blocks);
    TileFrom(text, 0);
  }
}
