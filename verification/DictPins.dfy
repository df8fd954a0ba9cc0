/** Dictionaries printed and read, spelled out. */
module DictPins {
  import opened Text
  import opened MarkdownFence
  import opened Outline
  import opened Sections
  import opened Edits
  import opened Body
  import opened Insert
  import opened DictTree
  import opened HeadingText
  import opened Replace
  import opened DictRoundTrip
  import opened FenceText
  import opened SectionPins

  /* ---------- keys ---------- */

  /** A key already in the dictionary keeps its place and takes the new value. */
  lemma {:induction false} PutReplaces(d: seq<Entry>, i: nat, value: Value)
    requires i < |d| && forall j :: 0 <= j < i ==> d[j].key != d[i].key
    ensures Put(d, d[i].key, value) == d[i := Entry(d[i].key, value)]
    ensures GetText(d, d[i].key) == if d[i].value.Leaf? then d[i].value.text else ""
  {
    if i > 0 {
      assert d[0].key != d[i].key;
      assert d[1..][i - 1] == d[i];
      assert forall j :: 0 <= j < i - 1 ==> d[1..][j] == d[j + 1];
      PutReplaces(d[1..], i - 1, value);
      assert [d[0]] + d[1..][i - 1 := Entry(d[i].key, value)] == d[i := Entry(d[i].key, value)];
    }
  }

  /** A new key goes to the end. */
  lemma {:induction false} PutAppends(d: seq<Entry>, key: string, value: Value)
    requires forall j :: 0 <= j < |d| ==> d[j].key != key
    ensures Put(d, key, value) == d + [Entry(key, value)] && GetText(d, key) == ""
  {
    if d != [] {
      assert forall j :: 0 <= j < |d| - 1 ==> d[1..][j] == d[j + 1];
      PutAppends(d[1..], key, value);
      assert [d[0]] + (d[1..] + [Entry(key, value)]) == d + [Entry(key, value)];
    }
  }

  /* ---------- texts ---------- */

  lemma {:induction false} NoHeadNoBlock(f: Fence, lines: seq<string>)
    requires HeadsFrom(f, lines) == []
    ensures OutlineFrom(f, lines) == Doc(lines, [])
    decreases |lines|
  {
    hide Head, Next;
    if lines != [] {
      NoHeadNoBlock(Next(f, lines[0]), lines[1..]);
    }
  }

  /** A text without headings, blank or not, reads as one preamble entry that holds all of it. */
  lemma HeadlessText(text: string)
    requires HeadsIn(text) == []
    ensures SectionsToDict(text) == [Entry("_preamble", Leaf(text))]
  {
    hide SectionsOf, OutlineFrom, SplitLines, HeadsFrom, Strip, Join;
    PreambleIs(text);
    NoHeadNoBlock(NoFence, SplitLines(text));
    JoinSplit(text);
    assert LinesBefore(OutlineOf(text), 0) == SplitLines(text) + [];
    assert SplitLines(text) + [] == SplitLines(text);
    assert text[0..|text|] == text;
  }

  /* ---------- one dictionary printed ---------- */

  const TREE := [
    Entry("_preamble", Leaf("p")),
    Entry("A", Sub([Entry("_content", Leaf("c")), Entry("B", Leaf("b\n"))])),
    Entry("D", Leaf("\nd"))]

  lemma HashLine(key: string)
    ensures HeadLine(1, key, "\n") == "# " + key + "\n" && HeadLine(2, key, "\n") == "## " + key + "\n"
  {
    assert Repeat('#', 1) == "#" && Repeat('#', 2) == "##";
  }

  /** A text that is not blank gets a newline in front and one behind where it has none, and a blank line after it. */
  lemma TextPrinted(t: string)
    ensures Strip(t) == "" ==> BodyText(t) == "\n"
    ensures Strip(t) != "" && t[0] != '\n' && t[|t| - 1] != '\n' ==> BodyText(t) == "\n" + t + "\n\n"
    ensures Strip(t) != "" && t[0] != '\n' && t[|t| - 1] == '\n' ==> BodyText(t) == "\n" + t + "\n"
    ensures Strip(t) != "" && t[0] == '\n' && t[|t| - 1] != '\n' ==> BodyText(t) == t + "\n\n"
    ensures Strip(t) != "" && t[0] == '\n' && t[|t| - 1] == '\n' ==> BodyText(t) == t + "\n"
  {
    StripBlank(t);
    hide Strip;
    if Strip(t) != "" {
      assert t != "";
      assert t[|t| - 1..] == [t[|t| - 1]] && t[..1] == [t[0]];
      assert "\n" + "\n" == "\n\n";
    }
  }

  lemma LetterTexts()
    ensures BodyText("c") == "\nc\n\n" && BodyText("b\n") == "\nb\n\n" && BodyText("\nd") == "\nd\n\n"
  {
    hide BodyText, Strip;
    BlankNot("c", 0);
    BlankNot("b\n", 0);
    BlankNot("\nd", 1);
    TextPrinted("c");
    TextPrinted("b\n");
    TextPrinted("\nd");
    assert "\n" + "c" + "\n\n" == "\nc\n\n" && "\n" + "b\n" + "\n" == "\nb\n\n" && "\nd" + "\n\n" == "\nd\n\n";
  }

  lemma BlankNot(s: string, i: nat)
    requires i < |s| && !IsSpace(s[i])
    ensures Strip(s) != ""
  {
    hide Strip;
    StripBlank(s);
  }

  lemma LeafRendered(key: string, t: string, level: nat)
    ensures RenderEntry(Entry(key, Leaf(t)), level) == HeadLine(level, key, "\n") + BodyText(t)
  {
    hide HeadLine, BodyText;
  }

  lemma OneRendered(e: Entry, level: nat, rest: seq<Entry>)
    ensures RenderEntries([e] + rest, level) == (if Reserved(e.key) then "" else RenderEntry(e, level)) + RenderEntries(rest, level)
    ensures RenderEntries([], level) == ""
  {
    hide RenderEntry;
    assert ([e] + rest)[1..] == rest;
  }

  lemma NodeRendered(key: string, sub: seq<Entry>, level: nat)
    ensures RenderEntry(Entry(key, Sub(sub)), level)
      == HeadLine(level, key, "\n") + BodyText(GetText(sub, "_content")) + RenderEntries(sub, level + 1)
  {
    hide HeadLine, BodyText;
  }

  lemma KidsRendered()
    ensures RenderEntries(TREE[1].value.entries, 2) == "## B\n\nb\n\n"
    ensures GetText(TREE[1].value.entries, "_content") == "c"
  {
    hide RenderEntry, BodyText, HeadLine;
    var own, kid := Entry("_content", Leaf("c")), Entry("B", Leaf("b\n"));
    LetterTexts();
    HashLine("B");
    LeafRendered("B", "b\n", 2);
    OneRendered(own, 2, [kid]);
    OneRendered(kid, 2, []);
    assert [own] + [kid] == TREE[1].value.entries && [kid] + [] == [kid];
  }

  lemma TreeRendered()
    ensures RenderEntries(TREE, 1) == "# A\n" + "\nc\n\n" + "## B\n\nb\n\n" + "# D\n" + "\nd\n\n"
  {
    hide RenderEntry, RenderEntries, BodyText, HeadLine;
    LetterTexts();
    HashLine("A");
    HashLine("D");
    KidsRendered();
    NodeRendered("A", TREE[1].value.entries, 1);
    LeafRendered("D", "\nd", 1);
    OneRendered(TREE[0], 1, TREE[1..]);
    OneRendered(TREE[1], 1, TREE[2..]);
    OneRendered(TREE[2], 1, []);
    assert TREE == [TREE[0]] + TREE[1..] && TREE[1..] == [TREE[1]] + TREE[2..] && TREE[2..] == [TREE[2]] + [];
  }

  const PRINTED := "p\n# A\n\nc\n\n## B\n\nb\n\n# D\n\nd\n\n"

  lemma PrintedSpelled()
    ensures PRINTED == "p\n" + ("# A\n" + "\nc\n\n" + "## B\n\nb\n\n" + "# D\n" + "\nd\n\n")
    ensures PRINTED != "" && PRINTED[|PRINTED| - 1] == '\n'
  {
  }

  lemma AlreadyEnded(s: string)
    requires s != "" && s[|s| - 1] == '\n'
    ensures Ended(s) == s
  {
    assert s[|s| - 1..] == "\n";
  }

  lemma FirstText(d: seq<Entry>)
    requires d != [] && d[0].value.Leaf?
    ensures GetText(d, d[0].key) == d[0].value.text
  {
  }

  lemma PreambleOfTree()
    ensures GetText(TREE, PREAMBLE) == "p" && Ended("p") == "p\n"
  {
    hide GetText;
    FirstText(TREE);
    assert "p"[0..] == "p";
  }

  /** Preamble, own text and children, each with the line ends and blank lines the printer puts around it. */
  lemma TreePrinted()
    ensures DictToMarkdown(TREE, 1) == PRINTED
  {
    hide RenderEntries, GetText, Ended;
    TreeRendered();
    PreambleOfTree();
    PrintedSpelled();
    AlreadyEnded(PRINTED);
  }

  /* ---------- and read back ---------- */

  lemma PlainLine(line: string)
    requires OneLine(line) && line != "" && (line[0] == 'p' || line[0] == 'c' || line[0] == 'b' || line[0] == 'd')
    ensures PlainBody(line)
  {
    hide Next, HeadingOf, OneLine, SplitLines;
    SplitOne(line);
    InkIsNotFence(line);
    if HeadingOf(line).Some? {
      HeadingInk(line);
    }
    assert HeadingOf(line) == None;
    assert [line][1..] == [] && HeadsFrom(NoFence, []) == [] && FenceAfter(NoFence, []) == NoFence;
  }

  lemma LetterLines()
    ensures PlainBody("p") && PlainBody("c") && PlainBody("b\n") && PlainBody("\nd")
  {
    hide PlainBody;
    assert OneLine("p") && OneLine("c") && OneLine("d");
    assert OneLine("b\n") by { UnbrokenLine("b", "\n"); }
    PlainLine("p");
    PlainLine("c");
    PlainLine("d");
    PlainLine("b\n");
    BrokenLine("d");
    assert "\n" + "d" == "\nd";
  }

  lemma BrokenLine(t: string)
    requires PlainBody(t)
    ensures PlainBody("\n" + t)
  {
    hide HeadsIn, FenceEnd, Seam;
    EolIsQuiet("\n");
    assert EndsWith("\n", "\n");
    NewlineSeam("\n", t);
    HeadsSeam("\n", t);
  }

  lemma LetterKey(key: string)
    requires key == "A" || key == "B" || key == "D"
    ensures ValidKey(key)
  {
    assert !IsSpace(key[0]) && !IsBreak(key[0]);
    StripInk(key);
  }

  /** A heading with a plain text is a valid entry at each of the six levels, and at no other. */
  lemma SixLevels(key: string, t: string, level: nat)
    requires ValidKey(key) && PlainBody(t)
    ensures ValidEntries([Entry(key, Leaf(t))], level) <==>
      level == 1 || level == 2 || level == 3 || level == 4 || level == 5 || level == 6
  {
    hide ValidKey, PlainBody;
    if 1 <= level <= 6 {
      assert ValidValue(Leaf(t), level);
    }
  }

  lemma TreeValid()
    ensures ValidRoot(TREE)
  {
    hide ValidKey, PlainBody, GetText;
    LetterLines();
    LetterKey("A");
    LetterKey("B");
    LetterKey("D");
    SixLevels("B", "b\n", 2);
    var kid := Entry("B", Leaf("b\n"));
    var sub := [Entry("_content", Leaf("c")), kid];
    assert Own(sub) == "c" && Kids(sub) == [kid];
    assert ValidValue(Sub(sub), 1);
    assert ValidValue(Leaf("\nd"), 1);
    assert RootKids(TREE) == [Entry("A", Sub(sub)), Entry("D", Leaf("\nd"))];
  }

  lemma LettersStripped()
    ensures Strip("p") == "p" && Strip("c") == "c" && Strip("b\n") == "b" && Strip("\nd") == "d"
  {
    StripInk("p");
    StripInk("c");
    StripInk("b");
    StripInk("d");
    hide Strip;
    BlankEol();
    StripPadded("", "b", "\n");
    StripPadded("\n", "d", "");
  }

  lemma NormOne(e: Entry, rest: seq<Entry>)
    ensures var n := Entry(e.key, NormValue(e.value));
      NormEntries([e] + rest) == (if Reserved(e.key) && n.value == Leaf("") then [] else [n]) + NormEntries(rest)
    ensures NormEntries([]) == []
  {
    hide Strip;
    assert ([e] + rest)[1..] == rest;
  }

  lemma NormTwo(a: Entry, b: Entry)
    ensures NormValue(a.value) != Leaf("") ==> NormEntries([a]) == [Entry(a.key, NormValue(a.value))]
    ensures NormValue(a.value) != Leaf("") && NormValue(b.value) != Leaf("") ==>
      NormEntries([a, b]) == [Entry(a.key, NormValue(a.value)), Entry(b.key, NormValue(b.value))]
  {
    hide NormEntries, NormValue;
    NormOne(a, []);
    NormOne(b, []);
    NormOne(a, [b]);
    assert [a] + [] == [a] && [b] + [] == [b] && [a] + [b] == [a, b];
  }

  lemma NormTree()
    ensures NormEntries(TREE) == [
      Entry("_preamble", Leaf("p")),
      Entry("A", Sub([Entry("_content", Leaf("c")), Entry("B", Leaf("b"))])),
      Entry("D", Leaf("d"))]
  {
    hide Strip, NormEntries;
    LettersStripped();
    var sub := TREE[1].value.entries;
    NormTwo(sub[0], sub[1]);
    assert sub == [sub[0], sub[1]];
    NormTwo(TREE[1], TREE[2]);
    NormOne(TREE[0], [TREE[1], TREE[2]]);
    assert TREE == [TREE[0]] + [TREE[1], TREE[2]];
  }

  /** The printed text above reads as the same tree, each text stripped. */
  lemma TreeReadsBack()
    ensures NormEntries(SectionsToDict(PRINTED)) == [
      Entry("_preamble", Leaf("p")),
      Entry("A", Sub([Entry("_content", Leaf("c")), Entry("B", Leaf("b"))])),
      Entry("D", Leaf("d"))]
  {
    hide SectionsToDict, DictToMarkdown, ValidEntries, Strip;
    TreePrinted();
    TreeValid();
    DictRoundTrip.DictRoundTrip(TREE);
    NormTree();
  }

  /* ---------- one document read ---------- */

  lemma PageLine()
    ensures LineOffset(PAGE, 4) == 7
  {
    hide SplitLines, Join;
    PageSplits();
    PageJoins();
    UptoJoin(PAGE_LINES, 3);
  }

  lemma {:induction false} UptoJoin(lines: seq<string>, k: nat)
    requires k <= |lines|
    ensures Upto(lines, k) == |Join(lines[..k])|
  {
  }

  lemma PageSlices()
    ensures Slice(PAGE, 0, 2) == "p\n" && Slice(PAGE, 6, 7) == "\n" && Slice(PAGE, 14, 16) == "x\n" && Slice(PAGE, 20, 20) == ""
    ensures Strip("p\n") != "" && Strip("\n") == ""
  {
    BlankNot("p\n", 0);
    StripBlank("\n");
  }

  lemma LeafBuilt(text: string, secs: seq<Section>, lo: nat, hi: nat, acc: seq<Entry>)
    requires lo < hi <= |secs| && ChildEnd(secs, lo + 1, hi, secs[lo].level) == lo + 1
    ensures BuildFrom(text, secs, lo, hi, acc)
      == BuildFrom(text, secs, lo + 1, hi, Put(acc, secs[lo].heading, Leaf(Slice(text, secs[lo].start, secs[lo].end))))
    ensures BuildFrom(text, secs, hi, hi, acc) == acc
  {
    hide Put, Slice, ChildEnd;
  }

  lemma NodeBuilt(text: string, secs: seq<Section>, lo: nat, c: nat, hi: nat, acc: seq<Entry>)
    requires lo + 1 < c <= hi <= |secs| && ChildEnd(secs, lo + 1, hi, secs[lo].level) == c
    ensures var own := OwnEntry(Slice(text, secs[lo].start, LineOffset(text, secs[lo + 1].line)));
      BuildFrom(text, secs, lo, hi, acc)
      == BuildFrom(text, secs, c, hi, Put(acc, secs[lo].heading, Sub(BuildFrom(text, secs, lo + 1, c, own))))
    ensures BuildFrom(text, secs, c, c, acc) == acc
  {
    hide Put, Slice, ChildEnd, LineOffset, OwnEntry;
  }

  /** The inner node A has a blank text of its own, so it gets no entry for it. */
  lemma PageAsDict()
    ensures SectionsToDict(PAGE) == [
      Entry("_preamble", Leaf("p\n")), Entry("A", Sub([Entry("B/C", Leaf("x\n"))])), Entry("D", Leaf(""))]
  {
    hide SectionsOf, Slice, LineOffset, Put, Strip, BuildFrom;
    PageRead();
    PageLine();
    PageSlices();
    var secs := SectionsOf(PAGE)[1..];
    assert secs[0].heading == "A" && secs[1].heading == "B/C" && secs[2].heading == "D";
    PageTree(secs, [Entry("_preamble", Leaf("p\n"))]);
  }

  predicate PageList(secs: seq<Section>) {
    && |secs| == 3 && secs[0].heading == "A" && secs[1].heading == "B/C" && secs[2].heading == "D"
    && secs[0].level == 1 && secs[1].level == 2 && secs[2].level == 1 && secs[1].line == 4
    && secs[0].start == 6 && secs[1].start == 14 && secs[1].end == 16 && secs[2].start == 20 && secs[2].end == 20
  }

  lemma PageChildren(secs: seq<Section>)
    requires PageList(secs)
    ensures ChildEnd(secs, 1, 3, 1) == 2 && ChildEnd(secs, 2, 2, 2) == 2 && ChildEnd(secs, 3, 3, 1) == 3
  {
    assert ChildEnd(secs, 2, 3, 1) == 2;
  }

  lemma PageNode(secs: seq<Section>)
    requires PageList(secs)
    ensures BuildFrom(PAGE, secs, 1, 2, []) == [Entry("B/C", Leaf("x\n"))]
  {
    hide Slice, Put, BuildFrom, ChildEnd;
    PageChildren(secs);
    PageSlices();
    LeafBuilt(PAGE, secs, 1, 2, []);
    LeafBuilt(PAGE, secs, 1, 2, [Entry("B/C", Leaf("x\n"))]);
    PutAppends([], "B/C", Leaf("x\n"));
    assert [] + [Entry("B/C", Leaf("x\n"))] == [Entry("B/C", Leaf("x\n"))];
  }

  lemma PageTree(secs: seq<Section>, root: seq<Entry>)
    requires PageList(secs) && root == [Entry("_preamble", Leaf("p\n"))]
    ensures BuildFrom(PAGE, secs, 0, 3, root) == root + [Entry("A", Sub([Entry("B/C", Leaf("x\n"))]))] + [Entry("D", Leaf(""))]
  {
    hide Slice, LineOffset, Put, Strip, BuildFrom, ChildEnd;
    PageLine();
    PageSlices();
    PageChildren(secs);
    PageNode(secs);
    var node := Sub([Entry("B/C", Leaf("x\n"))]);
    var more := root + [Entry("A", node)];
    NodeBuilt(PAGE, secs, 0, 2, 3, root);
    PutAppends(root, "A", node);
    LeafBuilt(PAGE, secs, 2, 3, more);
    PutAppends(more, "D", Leaf(""));
    LeafBuilt(PAGE, secs, 2, 3, more + [Entry("D", Leaf(""))]);
  }
}
