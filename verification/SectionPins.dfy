/** A document read in full, and the rules for paths. */
module SectionPins {
  import opened Text
  import opened MarkdownFence
  import opened Outline
  import opened Sections
  import opened Splice
  import opened Edits
  import opened Body
  import opened Replace
  import opened Insert
  import opened HeadingText
  import opened EditWitnesses
  import opened FenceText

  /* ---------- paths ---------- */

  lemma {:induction false} EscapeConcat(a: string, b: string)
    ensures Escape(a + b) == Escape(a) + Escape(b)
  {
    if a == "" {
      assert a + b == b;
    } else {
      assert (a + b)[1..] == a[1..] + b;
      EscapeConcat(a[1..], b);
    }
  }

  lemma {:induction false} EscapeKeeps(a: string)
    requires forall i :: 0 <= i < |a| ==> a[i] != '/'
    ensures Escape(a) == a
  {
    if a != "" {
      EscapeKeeps(a[1..]);
    }
  }

  /** In a path a heading's slashes are preceded by a backslash, and nothing else in it changes. */
  lemma SlashesEscaped(a: string, b: string)
    requires forall i :: 0 <= i < |a| ==> a[i] != '/'
    ensures Escape(a) == a && Escape(a + "/" + b) == a + "\\/" + Escape(b)
  {
    EscapeKeeps(a);
    EscapeConcat(a + "/", b);
    EscapeConcat(a, "/");
    assert Escape("/") == "\\/" by { assert "/"[1..] == ""; }
  }

  /** A path is the escaped headings with a slash between any two of them. */
  lemma {:induction false} PathJoins(stack: seq<Frame>, f: Frame)
    ensures SlashJoin([f]) == f.name
    ensures stack != [] ==> SlashJoin(stack + [f]) == SlashJoin(stack) + "/" + f.name
  {
    if |stack| == 1 {
      assert (stack + [f])[1..] == [f];
      assert [f][1..] == [];
    } else if |stack| > 1 {
      assert (stack + [f])[1..] == stack[1..] + [f];
      PathJoins(stack[1..], f);
    }
  }

  /* ---------- counts ---------- */

  /** A section counts the characters that reading it gives, none when its heading line swallows its end. */
  lemma CharsAre(text: string, k: nat)
    requires k < |SectionsOf(text)|
    ensures var sec := SectionsOf(text)[k];
      sec.chars == |Slice(text, sec.start, sec.end)|
  {
    hide SectionsOf, OutlineOf, Off, HeadAt, EndIdx, StackAt, SlashJoin, AfterNewline;
    PreambleIs(text);
    if k > 0 {
      SectionsAre(text, k - 1);
      OffInText(text);
    }
  }

  /* ---------- one document, read in full ---------- */

  const PAGE := "p\n# A\n\n## B/C\nx\n# D\n"

  const PAGE_BLOCKS := [
    Block(1, "A", "# A\n", ["\n"]), Block(2, "B/C", "## B/C\n", ["x\n"]), Block(1, "D", "# D\n", [])]

  const PAGE_LINES := ["p\n", "# A\n", "\n", "## B/C\n", "x\n", "# D\n"]

  lemma LetterHead(level: nat, heading: string)
    requires level == 1 || level == 2
    requires heading == "A" || heading == "B/C" || heading == "D"
    ensures Head(NoFence, HeadLine(level, heading, "\n")) == Some(Heading(level, heading))
  {
    hide Head;
    LetterInk(heading);
    HeadLineIsHead(level, heading, "\n");
  }

  lemma LetterInk(heading: string)
    requires heading == "A" || heading == "B/C" || heading == "D"
    ensures ValidHeading(heading)
  {
    assert !IsSpace('A') && !IsSpace('B') && !IsSpace('C') && !IsSpace('D');
    StripInk(heading);
  }

  lemma HeadTexts()
    ensures HeadLine(1, "A", "\n") == "# A\n" && HeadLine(2, "B/C", "\n") == "## B/C\n" && HeadLine(1, "D", "\n") == "# D\n"
  {
    assert Repeat('#', 1) == "#" && Repeat('#', 2) == "##";
  }

  lemma QuietLine(line: string)
    requires line == "p\n" || line == "\n" || line == "x\n"
    ensures Quiet(NoFence, [line]) && Balanced([line])
  {
    hide Next, HeadingOf;
    assert [line][1..] == [];
    if line == "\n" {
      BlankIsNotFence(line);
    } else {
      InkIsNotFence(line);
    }
    if HeadingOf(line).Some? { HeadingInk(line); }
    assert Quiet(NoFence, []) && FenceAfter(NoFence, []) == NoFence;
  }

  lemma PageOk()
    ensures DocOk(Doc(["p\n"], PAGE_BLOCKS))
  {
    hide Head, Quiet, Balanced;
    HeadTexts();
    LetterHead(1, "A");
    LetterHead(2, "B/C");
    LetterHead(1, "D");
    QuietLine("p\n");
    QuietLine("\n");
    QuietLine("x\n");
    assert Quiet(NoFence, []) by { NoLinesQuiet(); }
  }

  lemma NoLinesQuiet()
    ensures Quiet(NoFence, [])
  {
  }

  lemma PageBlockLines()
    ensures BlockLines(PAGE_BLOCKS) == PAGE_LINES[1..]
    ensures BlockLines(PAGE_BLOCKS[..0]) == [] && BlockLines(PAGE_BLOCKS[..1]) == PAGE_LINES[1..3]
    ensures BlockLines(PAGE_BLOCKS[..2]) == PAGE_LINES[1..5]
  {
    var a, b, c := PAGE_BLOCKS[0], PAGE_BLOCKS[1], PAGE_BLOCKS[2];
    assert PAGE_BLOCKS[..1] == [a] && PAGE_BLOCKS[..2] == [a] + [b] && PAGE_BLOCKS == [a] + [b] + [c];
    OneBlock(a);
    OneBlock(b);
    OneBlock(c);
    hide BlockLines;
    BlockLinesConcat([a], [b]);
    BlockLinesConcat([a] + [b], [c]);
    assert BlockLines([]) == [] by { NoBlock(); }
  }

  lemma NoBlock()
    ensures BlockLines([]) == []
  {
  }

  lemma OneBlock(b: Block)
    ensures BlockLines([b]) == [b.head] + b.body
  {
    assert [b][1..] == [];
  }

  lemma JoinMore(lines: seq<string>, line: string)
    ensures Join(lines + [line]) == Join(lines) + line
  {
    hide Join;
    JoinConcat(lines, [line]);
    JoinOne(line);
  }

  lemma PagePrefix(k: nat)
    requires k < 6
    ensures Join(PAGE_LINES[..k + 1]) == Join(PAGE_LINES[..k]) + PAGE_LINES[k]
  {
    hide Join;
    assert PAGE_LINES[..k + 1] == PAGE_LINES[..k] + [PAGE_LINES[k]];
    JoinMore(PAGE_LINES[..k], PAGE_LINES[k]);
  }

  lemma PageJoins()
    ensures Join(PAGE_LINES) == PAGE && |Join(PAGE_LINES[..1])| == 2 && |Join(PAGE_LINES[..3])| == 7 && |Join(PAGE_LINES[..5])| == 16
  {
    assert Join(PAGE_LINES[..0]) == "" by { assert PAGE_LINES[..0] == []; }
    hide Join;
    PagePrefix(0);
    PagePrefix(1);
    PagePrefix(2);
    PagePrefix(3);
    PagePrefix(4);
    PagePrefix(5);
    assert PAGE_LINES[..6] == PAGE_LINES;
    PageSpelled();
  }

  lemma PageSpelled()
    ensures PAGE == "" + "p\n" + "# A\n" + "\n" + "## B/C\n" + "x\n" + "# D\n"
  {
  }

  lemma JoinOne(line: string)
    ensures Join([line]) == line
  {
    assert [line][1..] == [];
    assert line + "" == line;
  }

  lemma PageSplits()
    ensures SplitLines(PAGE) == PAGE_LINES
  {
    hide SplitLines, Join;
    PageJoins();
    LineEnds("p\n", 1);
    LineEnds("# A\n", 3);
    LineEnds("\n", 0);
    LineEnds("## B/C\n", 6);
    LineEnds("x\n", 1);
    LineEnds("# D\n", 3);
    SplitJoin(PAGE_LINES);
  }

  lemma PageOutline()
    ensures OutlineOf(PAGE) == Doc(["p\n"], PAGE_BLOCKS)
  {
    hide OutlineOf, SplitLines, DocOk, BlockLines;
    PageSplits();
    PageOk();
    PageBlockLines();
    assert ["p\n"] + PAGE_LINES[1..] == PAGE_LINES;
    OutlineOfLines(PAGE, Doc(["p\n"], PAGE_BLOCKS));
  }

  lemma PageOffsets()
    ensures var d := Doc(["p\n"], PAGE_BLOCKS);
      && Off(d, 0) == 2 && Off(d, 1) == 7 && Off(d, 2) == 16 && Off(d, 3) == |PAGE|
      && HeadAt(d, 0) == 1 && HeadAt(d, 1) == 3 && HeadAt(d, 2) == 5
      && EndIdx(PAGE_BLOCKS, 0) == 2 && EndIdx(PAGE_BLOCKS, 1) == 2 && EndIdx(PAGE_BLOCKS, 2) == 3
  {
    hide BlockLines, Join;
    var d, l := Doc(["p\n"], PAGE_BLOCKS), PAGE_LINES;
    PageBlockLines();
    PageJoins();
    assert PAGE_BLOCKS[..3] == PAGE_BLOCKS;
    assert LinesBefore(d, 0) == l[..1] && LinesBefore(d, 1) == l[..3] && LinesBefore(d, 2) == l[..5] && LinesBefore(d, 3) == l;
  }

  lemma PageStacks()
    ensures SlashJoin(StackAt(PAGE_BLOCKS, 1)) == "A" && SlashJoin(StackAt(PAGE_BLOCKS, 2)) == "A/B\\/C"
    ensures SlashJoin(StackAt(PAGE_BLOCKS, 3)) == "D"
  {
    EscapeKeeps("A");
    EscapeKeeps("D");
    EscapeKeeps("C");
    SlashesEscaped("B", "C");
    assert "B" + "/" + "C" == "B/C" && "B" + "\\/" + "C" == "B\\/C";
    hide SlashJoin, StackAt;
    StacksThree();
    PathJoins([Frame(1, "A")], Frame(2, "B\\/C"));
    PathJoins([], Frame(1, "D"));
    PathJoins([], Frame(1, "A"));
    assert [Frame(1, "A")] + [Frame(2, "B\\/C")] == [Frame(1, "A"), Frame(2, "B\\/C")];
  }

  lemma PopAll(a: Frame, b: Frame, level: nat)
    requires a.level >= level && b.level >= level
    ensures Pop([a, b], level) == [] && Pop([a], level) == []
  {
    assert [a, b][..1] == [a] && [a][..0] == [];
    assert Pop([], level) == [];
    assert Pop([a], level) == Pop([], level);
    assert Pop([a, b], level) == Pop([a], level);
  }

  lemma PopNone(a: Frame, level: nat)
    requires a.level < level
    ensures Pop([a], level) == [a]
  {
  }

  lemma StackNext(blocks: seq<Block>, k: nat)
    requires k < |blocks|
    ensures StackAt(blocks, k + 1) == Pop(StackAt(blocks, k), blocks[k].level) + [Frame(blocks[k].level, Escape(blocks[k].heading))]
    ensures StackAt(blocks, 0) == []
  {
    hide Pop, Escape;
  }

  lemma StacksThree()
    requires Escape("A") == "A" && Escape("B/C") == "B\\/C" && Escape("D") == "D"
    ensures StackAt(PAGE_BLOCKS, 1) == [Frame(1, "A")] && StackAt(PAGE_BLOCKS, 2) == [Frame(1, "A"), Frame(2, "B\\/C")]
    ensures StackAt(PAGE_BLOCKS, 3) == [Frame(1, "D")]
  {
    var a, b := Frame(1, "A"), Frame(2, "B\\/C");
    assert Pop([], 1) == [];
    hide Escape, StackAt, Pop;
    StackNext(PAGE_BLOCKS, 0);
    StackNext(PAGE_BLOCKS, 1);
    StackNext(PAGE_BLOCKS, 2);
    PopNone(a, 2);
    PopAll(a, b, 1);
  }

  /** A preamble, a section with a subsection whose heading has a slash in it, and a section after them. */
  lemma PageRead()
    ensures SectionsOf(PAGE) == [
      Section("", 0, "", 1, 0, 2, 2),
      Section("A", 1, "A", 2, 6, 16, 10),
      Section("B/C", 2, "A/B\\/C", 4, 14, 16, 2),
      Section("D", 1, "D", 6, 20, 20, 0)]
  {
    hide SectionsOf, OutlineOf, Off, HeadAt, EndIdx, StackAt, SlashJoin, AfterNewline;
    PageOutline();
    PageOffsets();
    PageStacks();
    PreambleIs(PAGE);
    SectionsAre(PAGE, 0);
    SectionsAre(PAGE, 1);
    SectionsAre(PAGE, 2);
    AfterNewlineAt(PAGE, 2, 5);
    AfterNewlineAt(PAGE, 7, 13);
    AfterNewlineAt(PAGE, 16, 19);
  }
}
