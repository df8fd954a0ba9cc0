/** Texts at which an edit does not read back: the exceptions of the exact conditions do occur. */
module EditWitnesses {
  import opened Text
  import opened MarkdownFence
  import opened Outline
  import opened Sections
  import opened Splice
  import opened Edits
  import opened Body
  import opened Replace
  import opened ReplaceReparse
  import opened Insert
  import opened HeadingText

  /* ---------- delete ---------- */

  /** A heading line ended by a vertical tab, and two ordinary ones. */
  const VTAB := "# a\U{0b}"
  const THREE := "# a\U{0b}# b\n# c\n"

  const BLOCKS := [Block(1, "a", VTAB, []), Block(1, "b", "# b\n", []), Block(1, "c", "# c\n", [])]

  lemma ReadsTabbed()
    ensures HeadingOf(VTAB) == Some(Heading(1, "a"))
  {
    assert ChopBreak(VTAB) == VTAB;
    assert VTAB[1..] == " a\U{0b}";
    assert RunLen(VTAB, '#') == 1;
    assert " a\U{0b}"[1..] == "a\U{0b}";
    assert PadLen(" a\U{0b}") == 1;
    assert "a\U{0b}"[1..] == "\U{0b}" && "a\U{0b}"[2..] == "";
    assert !ClosingRun("\U{0b}");
    assert TextLen("a\U{0b}", 1) == 2;
    assert "a\U{0b}"[..2] == "a\U{0b}";
    StripTabbed();
  }

  lemma StripTabbed()
    ensures Strip("a\U{0b}") == "a"
  {
    assert "a\U{0b}"[..1] == "a";
  }

  lemma PlainLine(c: char)
    requires c == 'b' || c == 'c'
    ensures var line := "# " + [c] + "\n"; HeadLine(1, [c], "\n") == line && Head(NoFence, line) == Some(Heading(1, [c]))
  {
    hide Head;
    assert Repeat('#', 1) == "#";
    assert ValidHeading([c]);
    HeadLineIsHead(1, [c], "\n");
  }

  lemma BlocksFine()
    ensures BlocksOk(BLOCKS)
  {
    hide Head, Next, HeadingOf;
    ReadsTabbed();
    InkIsNotFence(VTAB);
    assert Head(NoFence, VTAB) == Some(Heading(1, "a")) by { VisibleHead(VTAB); }
    PlainLine('b');
    PlainLine('c');
    assert "# " + ['b'] + "\n" == "# b\n" && "# " + ['c'] + "\n" == "# c\n" && ['b'] == "b" && ['c'] == "c";
  }

  lemma VisibleHead(line: string)
    requires Next(NoFence, line) == NoFence
    ensures Head(NoFence, line) == HeadingOf(line)
  {
    hide Next, HeadingOf;
  }

  lemma ThreeLines()
    ensures SplitLines(THREE) == [VTAB, "# b\n", "# c\n"] && Join([VTAB]) == VTAB && Join([VTAB, "# b\n"]) == VTAB + "# b\n"
  {
    hide SplitLines;
    var lines := [VTAB, "# b\n", "# c\n"];
    assert OneLine(VTAB) by { LineEnds(VTAB, 3); }
    assert OneLine("# b\n") by { LineEnds("# b\n", 3); }
    assert OneLine("# c\n") by { LineEnds("# c\n", 3); }
    assert lines[1..] == ["# b\n", "# c\n"] && ["# b\n", "# c\n"][1..] == ["# c\n"] && ["# c\n"][1..] == [];
    assert [VTAB, "# b\n"][1..] == ["# b\n"] && ["# b\n"][1..] == [] && [VTAB][1..] == [];
    assert Join(lines) == THREE;
    SplitJoin(lines);
  }

  lemma {:induction false} LineEnds(s: string, n: nat)
    requires |s| == n + 1 && IsBreak(s[n]) && s[n] != '\r' && forall i :: 0 <= i < n ==> !IsBreak(s[i])
    ensures OneLine(s)
  {
    if n > 0 { LineEnds(s[1..], n - 1); }
  }

  lemma BareBlock(b: Block, rest: seq<Block>)
    requires b.body == []
    ensures BlockLines([b] + rest) == [b.head] + BlockLines(rest)
  {
    assert ([b] + rest)[1..] == rest;
    assert [b.head] + [] + BlockLines(rest) == [b.head] + BlockLines(rest);
  }

  lemma BareBlocks(a: Block, b: Block, c: Block)
    requires a.body == [] && b.body == [] && c.body == []
    ensures BlockLines([]) == [] && BlockLines([a]) == [a.head]
    ensures BlockLines([a, b]) == [a.head, b.head] && BlockLines([a, b, c]) == [a.head, b.head, c.head]
  {
    assert BlockLines([]) == [];
    hide BlockLines;
    BareBlock(a, []);
    BareBlock(b, []);
    BareBlock(c, []);
    BareBlock(b, [c]);
    BareBlock(a, [b]);
    BareBlock(a, [b, c]);
    assert [a] + [] == [a] && [b] + [] == [b] && [c] + [] == [c];
    assert [a] + [b] == [a, b] && [b] + [c] == [b, c] && [a] + [b, c] == [a, b, c];
  }

  lemma ThreeOutline()
    ensures OutlineOf(THREE) == Doc([], BLOCKS)
  {
    hide Head, Next, BlocksOk, OutlineOf, SplitLines, BlockLines;
    ThreeLines();
    BlocksFine();
    BareBlocks(BLOCKS[0], BLOCKS[1], BLOCKS[2]);
    assert BLOCKS == [BLOCKS[0], BLOCKS[1], BLOCKS[2]];
    OutlineOfLines(THREE, Doc([], BLOCKS));
  }

  lemma ThreeOffsets()
    ensures var d := Doc([], BLOCKS); Off(d, 0) == 0 && Off(d, 1) == 4 && Off(d, 2) == 8
  {
    hide BlockLines, Join;
    var d := Doc([], BLOCKS);
    BareBlocks(BLOCKS[0], BLOCKS[1], BLOCKS[2]);
    assert BLOCKS[..0] == [] && BLOCKS[..1] == [BLOCKS[0]] && BLOCKS[..2] == [BLOCKS[0], BLOCKS[1]];
    assert LinesBefore(d, 0) == [] && LinesBefore(d, 1) == [VTAB] && LinesBefore(d, 2) == [VTAB, "# b\n"];
    JoinShort();
  }

  lemma JoinShort()
    ensures Join([]) == "" && |Join([VTAB])| == 4 && |Join([VTAB, "# b\n"])| == 8
  {
    ThreeLines();
  }

  lemma ThreeEnds()
    ensures EndIdx(BLOCKS, 0) == 1 && EndIdx(BLOCKS, 1) == 2
  {
  }

  /**
   * Deleting the second heading of this text takes the newline of the first with it: the first section, which
   * began after the second heading line, then begins after the third, and the re-parsed list is not the old one moved.
   */
  lemma DeleteMovesStart()
    ensures var secs := SectionsOf(THREE);
      && |secs| == 4 && !CutClean(THREE, 2)
      && SectionsOf(DeleteSection(THREE, 2)) != AllMoved(DeleteEdit(THREE, 2), secs[..2] + secs[SubtreeEnd(THREE, 2)..])
  {
    hide OutlineOf, SectionsOf, Off, EndIdx, AfterNewline, StackAt, SlashJoin, HeadAt, DeleteSection, AllMoved;
    ThreeOutline();
    ThreeOffsets();
    ThreeEnds();
    PreambleIs(THREE);
    SectionsAre(THREE, 0);
    SectionsAre(THREE, 1);
    AfterNewlineAt(THREE, 0, 7);
    var secs, e := SectionsOf(THREE), DeleteEdit(THREE, 2);
    assert e.from == 4 && e.to == 8 && secs[1].start == 8 && secs[2].end == 8;
    assert e.from < secs[1].start <= e.to;
    DeleteReparse(THREE, 2);
  }

  /* ---------- replace ---------- */

  lemma UntermOutline()
    ensures OutlineOf("# a") == Doc([], [Block(1, "a", "# a", [])])
  {
    hide Head, Next, HeadingOf, SplitLines, OutlineOf;
    assert OneLine("# a") by { NoEnd("# a", 3); }
    assert Join(["# a"]) == "# a" by { assert ["# a"][1..] == []; }
    SplitJoin(["# a"]);
    ReadsUnterm();
    InkIsNotFence("# a");
    VisibleHead("# a");
    var d := Doc([], [Block(1, "a", "# a", [])]);
    assert d.blocks[1..] == [];
    assert LinesOf(d) == ["# a"];
    OutlineOfLines("# a", d);
  }

  lemma {:induction false} NoEnd(s: string, n: nat)
    requires |s| == n > 0 && forall i :: 0 <= i < n ==> !IsBreak(s[i])
    ensures OneLine(s)
  {
    if n > 1 {
      NoEnd(s[1..], n - 1);
    } else {
      assert s[1..] == "";
    }
  }

  lemma ReadsUnterm()
    ensures HeadingOf("# a") == Some(Heading(1, "a"))
  {
    assert ChopBreak("# a") == "# a";
    assert "# a"[1..] == " a" && " a"[1..] == "a" && "a"[1..] == "";
    assert RunLen("# a", '#') == 1;
    assert PadLen(" a") == 1;
    assert TextLen("a", 1) == 1 && "a"[..1] == "a";
    StripOneA();
  }

  lemma UntermSections()
    ensures |SectionsOf("# a")| == 2
    ensures var sec := SectionsOf("# a")[1]; sec.level == 1 && sec.heading == "a" && sec.start == 3 && sec.end == 3
  {
    hide SectionsOf, StackAt, SlashJoin, OutlineOf, Off, EndIdx, HeadAt;
    UntermOutline();
    PreambleIs("# a");
    SectionsAre("# a", 0);
    UntermOffsets();
    AfterNewlineIs("# a", 0);
  }

  lemma UntermOffsets()
    ensures var d := Doc([], [Block(1, "a", "# a", [])]); Off(d, 0) == 0 && EndIdx(d.blocks, 0) == 1 && Off(d, 1) == 3
  {
    hide Join;
    var d := Doc([], [Block(1, "a", "# a", [])]);
    assert d.blocks[..0] == [] && d.blocks[..1] == d.blocks && d.blocks[1..] == [];
    assert LinesBefore(d, 1) == ["# a"] && LinesBefore(d, 0) == [];
    JoinUnterm();
  }

  lemma JoinUnterm()
    ensures Join([]) == "" && Join(["# a"]) == "# a"
  {
    assert ["# a"][1..] == [];
  }

  /** A document of one heading without a line end: the new body ends up in the heading line and is not read back. */
  lemma ReplaceGluesBody()
    ensures |SectionsOf("# a")| == 2 && ReplaceSection("# a", 1, "x").0 == "# ax\n"
    ensures var text', body := ReplaceSection("# a", 1, "x").0, Installed("# a", 1, "x");
      && body == "x\n"
      && !(1 < |SectionsOf(text')| && ReadsBack("# a", SectionsOf("# a")[1], text', SectionsOf(text')[1], body))
  {
    hide SectionsOf, ReadsBack, StripLeadingHeading;
    UntermSections();
    NoHeadingX();
    assert "# a"[..3] == "# a" && "# a"[3..] == "";
    assert PadBody("x", "") == "x\n" by { assert "x"[0..] == "x"; }
    ReplaceUnterminated("# a", 1, "x");
  }

  lemma NoHeadingX()
    ensures StripLeadingHeading("x", 1, "a") == ("x", false)
  {
    hide OutlineOf, HeadsIn, SectionsOf;
    assert HeadsIn("x") == [] by { XHasNone(); }
    PreambleIs("x");
    HeadCountX();
  }

  lemma HeadCountX()
    ensures |OutlineOf("x").blocks| == |HeadsIn("x")|
  {
    hide OutlineFrom, HeadsFrom, Shape;
    HeadsAreShape(NoFence, SplitLines("x"));
    ShapeLen(OutlineOf("x").blocks);
  }

  lemma XHasNone()
    ensures HeadsIn("x") == []
  {
    hide Next;
    NoEnd("x", 1);
    SeamEmpty("x");
    SplitCons("x", "");
    assert "x" + "" == "x" && ["x"][1..] == [];
    if HeadingOf("x").Some? { HeadingInk("x"); }
  }
}
