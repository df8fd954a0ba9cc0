/** The section list of a document: offsets, levels and escaped paths. */
module Sections {
  import opened Text
  import opened MarkdownFence
  import opened Outline

  /** `start` follows the heading line, `end` is exclusive. */
  datatype Section = Section(heading: string, level: nat, path: string, line: nat, start: nat, end: nat, chars: nat)

  datatype Frame = Frame(level: nat, name: string)

  function Escape(s: string): string {
    if s == "" then "" else (if s[0] == '/' then "\\/" else [s[0]]) + Escape(s[1..])
  }

  function SlashJoin(stack: seq<Frame>): string {
    if stack == [] then ""
    else if |stack| == 1 then stack[0].name
    else SlashJoin(stack[..|stack| - 1]) + "/" + stack[|stack| - 1].name
  }

  function Pop(stack: seq<Frame>, level: nat): seq<Frame> {
    if stack != [] && stack[|stack| - 1].level >= level then Pop(stack[..|stack| - 1], level) else stack
  }

  function Push(stack: seq<Frame>, b: Block): seq<Frame> {
    Pop(stack, b.level) + [Frame(b.level, Escape(b.heading))]
  }

  /** The path stack after the first `k` headings. */
  function StackAt(blocks: seq<Block>, k: nat): seq<Frame>
    requires k <= |blocks|
  {
    if k == 0 then [] else Push(StackAt(blocks, k - 1), blocks[k - 1])
  }

  /** The first block at or after `j` whose level does not exceed `level`, else the block count. */
  function NextAtMost(blocks: seq<Block>, level: nat, j: nat): (r: nat)
    requires j <= |blocks|
    ensures j <= r <= |blocks|
    ensures r < |blocks| ==> blocks[r].level <= level
    ensures forall t :: j <= t < r ==> blocks[t].level > level
    decreases |blocks| - j
  {
    if j == |blocks| || blocks[j].level <= level then j else NextAtMost(blocks, level, j + 1)
  }

  function EndIdx(blocks: seq<Block>, i: nat): (r: nat)
    requires i < |blocks|
    ensures i < r <= |blocks|
  {
    NextAtMost(blocks, blocks[i].level, i + 1)
  }

  /** The lines before block `k`. */
  function LinesBefore(d: Doc, k: nat): seq<string>
    requires k <= |d.blocks|
  {
    d.pre + BlockLines(d.blocks[..k])
  }

  function HeadAt(d: Doc, k: nat): nat
    requires k <= |d.blocks|
  {
    |LinesBefore(d, k)|
  }

  function Off(d: Doc, k: nat): nat
    requires k <= |d.blocks|
  {
    |Join(LinesBefore(d, k))|
  }

  /** `find("\n", from)` plus one, or the text length. */
  function AfterNewline(text: string, from: nat): (r: nat)
    requires from <= |text|
    ensures from <= r <= |text|
    decreases |text| - from
  {
    if from == |text| then |text|
    else if text[from] == '\n' then from + 1
    else AfterNewline(text, from + 1)
  }

  function Span(start: nat, end: nat): nat {
    if start <= end then end - start else 0
  }

  function Preamble(d: Doc): Section {
    Section("", 0, "", 1, 0, Off(d, 0), Off(d, 0))
  }

  function SectionAt(text: string, d: Doc, k: nat): Section
    requires k < |d.blocks| && Off(d, k) <= |text|
  {
    var b := d.blocks[k];
    var start, end := AfterNewline(text, Off(d, k)), Off(d, EndIdx(d.blocks, k));
    Section(b.heading, b.level, SlashJoin(StackAt(d.blocks, k + 1)), HeadAt(d, k) + 1, start, end, Span(start, end))
  }

  /** The sections of `text` in document order; the preamble comes first. */
  function SectionsOf(text: string): seq<Section> {
    var d := OutlineOf(text);
    OffInText(text);
    [Preamble(d)] + seq(|d.blocks|, k requires 0 <= k < |d.blocks| && Off(d, k) <= |text| => SectionAt(text, d, k))
  }

  lemma SectionsAre(text: string, k: nat)
    requires k < |OutlineOf(text).blocks|
    ensures |SectionsOf(text)| == |OutlineOf(text).blocks| + 1
    ensures Off(OutlineOf(text), k) <= |text|
    ensures SectionsOf(text)[k + 1] == SectionAt(text, OutlineOf(text), k)
  {
    hide OutlineOf, Off, SectionAt;
    OffInText(text);
  }

  lemma PreambleIs(text: string)
    ensures |SectionsOf(text)| == |OutlineOf(text).blocks| + 1
    ensures SectionsOf(text)[0] == Preamble(OutlineOf(text)) && Off(OutlineOf(text), 0) <= |text|
  {
    hide OutlineOf, Off, SectionAt;
    OffInText(text);
  }

  /* ---------- positions ---------- */

  lemma {:induction false} BlockLinesConcat(a: seq<Block>, b: seq<Block>)
    ensures BlockLines(a + b) == BlockLines(a) + BlockLines(b)
  {
    if a == [] {
      assert a + b == b;
    } else {
      assert (a + b)[1..] == a[1..] + b;
      BlockLinesConcat(a[1..], b);
    }
  }

  lemma LinesSplitAt(d: Doc, k: nat)
    requires k <= |d.blocks|
    ensures LinesOf(d) == LinesBefore(d, k) + BlockLines(d.blocks[k..])
  {
    assert d.blocks == d.blocks[..k] + d.blocks[k..];
    BlockLinesConcat(d.blocks[..k], d.blocks[k..]);
  }

  lemma LinesBeforeStep(d: Doc, i: nat, j: nat)
    requires i <= j <= |d.blocks|
    ensures LinesBefore(d, j) == LinesBefore(d, i) + BlockLines(d.blocks[i..j])
  {
    assert d.blocks[..j] == d.blocks[..i] + d.blocks[i..j];
    BlockLinesConcat(d.blocks[..i], d.blocks[i..j]);
  }

  /** Line offsets of the text are block offsets of its outline. */
  lemma UptoHead(text: string, k: nat)
    requires k <= |OutlineOf(text).blocks|
    ensures var d, lines := OutlineOf(text), SplitLines(text);
      HeadAt(d, k) <= |lines| && lines[..HeadAt(d, k)] == LinesBefore(d, k) && Upto(lines, HeadAt(d, k)) == Off(d, k)
      && lines[HeadAt(d, k)..] == BlockLines(d.blocks[k..])
  {
    hide OutlineFrom, Join;
    var d := OutlineOf(text);
    TextOfOutline(text);
    LinesSplitAt(d, k);
  }

  lemma OffInText(text: string)
    ensures forall k :: 0 <= k <= |OutlineOf(text).blocks| ==> Off(OutlineOf(text), k) <= |text|
  {
    hide OutlineOf, Off;
    forall k | 0 <= k <= |OutlineOf(text).blocks| ensures Off(OutlineOf(text), k) <= |text| {
      UptoHead(text, k);
      CutAt(text, HeadAt(OutlineOf(text), k));
    }
  }

  lemma OffCut(text: string, k: nat)
    requires k <= |OutlineOf(text).blocks|
    ensures var d := OutlineOf(text);
      Off(d, k) <= |text|
      && text[..Off(d, k)] == Join(LinesBefore(d, k)) && text[Off(d, k)..] == Join(BlockLines(d.blocks[k..]))
      && SplitLines(text[..Off(d, k)]) == LinesBefore(d, k)
      && SplitLines(text[Off(d, k)..]) == BlockLines(d.blocks[k..])
  {
    hide OutlineOf, Off, LinesBefore, BlockLines, SplitLines, Join;
    UptoHead(text, k);
    CutAt(text, HeadAt(OutlineOf(text), k));
  }

  lemma OffEnd(text: string)
    ensures Off(OutlineOf(text), |OutlineOf(text).blocks|) == |text|
  {
    hide OutlineOf, Join;
    var d := OutlineOf(text);
    TextOfOutline(text);
    assert d.blocks[..|d.blocks|] == d.blocks;
  }

  /** Offsets grow from block to block. */
  lemma OffMonotone(text: string, i: nat, j: nat)
    requires i <= j <= |OutlineOf(text).blocks|
    ensures var d := OutlineOf(text);
      Off(d, i) <= Off(d, j) && HeadAt(d, i) <= HeadAt(d, j)
      && (i < j ==> Off(d, i) < Off(d, j) && HeadAt(d, i) < HeadAt(d, j))
  {
    hide OutlineOf;
    var d := OutlineOf(text);
    TextOfOutline(text);
    LinesBeforeStep(d, i, j);
    JoinConcat(LinesBefore(d, i), BlockLines(d.blocks[i..j]));
    if i < j {
      var b := d.blocks[i];
      assert d.blocks[i..j][0] == b;
      assert BlockOk(b);
      HeadNonEmpty(b);
    }
  }

  lemma HeadNonEmpty(b: Block)
    requires BlockOk(b)
    ensures b.head != "" && b.head[0] == '#' && 1 <= b.level <= 6
  {
    hide HeadingOf, Next, Quiet;
    HeadingInk(b.head);
  }
}
