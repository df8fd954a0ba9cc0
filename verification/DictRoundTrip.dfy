/** Printing a valid dictionary and reading it back gives the same dictionary, texts padded. */
module DictRoundTrip {
  import opened Text
  import opened MarkdownFence
  import opened Outline
  import opened Sections
  import opened Edits
  import opened Body
  import opened Replace
  import opened Insert
  import opened DictTree

  /* ---------- texts ---------- */

  lemma BlankEol()
    ensures Blank("\n") && Blank("") && Strip("\n") == ""
  {
    StripBlank("\n");
  }

  lemma BodyTextStrip(t: string)
    ensures Strip(BodyText(t)) == Strip(t)
  {
    hide Strip, Blank;
    BlankEol();
    if Strip(t) == "" {
      assert BodyText(t) == "\n";
    } else {
      var before := if "\n" <= t then "" else "\n";
      var after := if EndsWith(t, "\n") then "\n" else "\n" + "\n";
      assert BodyText(t) == before + t + after;
      assert Blank(after) by { BlankNewlines(); }
      StripPadded(before, t, after);
    }
  }

  lemma BlankNewlines()
    ensures Blank("\n" + "\n")
  {
  }

  lemma BodyTextPlain(t: string)
    requires PlainBody(t)
    ensures PlainBody(BodyText(t)) && EndsWith(BodyText(t), "\n")
  {
    hide HeadsIn, FenceEnd, Strip, Seam;
    EolIsQuiet("\n");
    var before := if "\n" <= t then "" else "\n";
    if Strip(t) == "" {
      assert BodyText(t) == "\n";
    } else {
      var ended := if EndsWith(t, "\n") then t else t + "\n";
      AddEol(t, "\n");
      assert PlainBody(before) by { PlainNothing(); }
      NewlineSeam(before, ended);
      HeadsSeam(before, ended);
      AddEol(before + ended, "\n");
      assert BodyText(t) == before + ended + "\n";
    }
    EndsWithRight(RenderText(t), "\n");
  }

  lemma PlainNothing()
    ensures PlainBody("") && HeadsIn("") == [] && FenceEnd("") == NoFence
  {
  }

  /* ---------- the blocks of a printed dictionary ---------- */

  function OwnText(v: Value): string {
    match v
    case Leaf(t) => t
    case Sub(es) => Own(es)
  }

  function EntryBlock(e: Entry, level: nat): Block {
    Block(level, e.key, HeadLine(level, e.key, "\n"), SplitLines(BodyText(OwnText(e.value))))
  }

  function KidBlocks(v: Value, level: nat): seq<Block>
    decreases v, 1
  {
    match v
    case Leaf(_) => []
    case Sub(es) => EntryBlocks(Kids(es), level)
  }

  function EntryBlocks(es: seq<Entry>, level: nat): seq<Block>
    decreases es, 0
  {
    if es == [] then []
    else [EntryBlock(es[0], level)] + KidBlocks(es[0].value, level + 1) + EntryBlocks(es[1..], level)
  }

  predicate PrintedBlock(b: Block) {
    BlockOk(b) && Balanced(b.body) && EndsWith(b.head, "\n")
  }

  predicate Printed(blocks: seq<Block>) {
    forall k :: 0 <= k < |blocks| ==> PrintedBlock(blocks[k])
  }

  lemma PrintedOk(blocks: seq<Block>)
    requires Printed(blocks)
    ensures BlocksOk(blocks)
  {
    hide BlockOk, Balanced;
    assert forall k :: 0 <= k < |blocks| ==> PrintedBlock(blocks[k]);
  }

  lemma ValidTail(es: seq<Entry>, level: nat)
    requires ValidEntries(es, level) && es != []
    ensures ValidEntries(es[1..], level) && ValidKey(es[0].key) && ValidValue(es[0].value, level) && 1 <= level <= 6
    ensures DistinctKeys(es)
  {
    hide ValidKey, ValidValue;
    assert forall i :: 0 <= i < |es[1..]| ==> es[1..][i] == es[i + 1];
  }

  lemma {:induction false} NoContent(es: seq<Entry>)
    requires forall i :: 0 <= i < |es| ==> !Reserved(es[i].key)
    ensures GetText(es, CONTENT) == "" && GetText(es, PREAMBLE) == ""
  {
    if es != [] {
      NoContent(es[1..]);
    }
  }

  lemma NodeTextIsOwn(v: Value, level: nat)
    requires ValidValue(v, level)
    ensures NodeText(v) == OwnText(v) && PlainBody(OwnText(v))
    ensures v.Sub? ==> RenderEntries(v.entries, level + 1) == RenderEntries(Kids(v.entries), level + 1)
  {
    hide PlainBody, RenderEntry;
    if v.Sub? && !HasOwn(v.entries, CONTENT) {
      assert forall i :: 0 <= i < |v.entries| ==> ValidKey(v.entries[i].key);
      NoContent(v.entries);
    }
  }

  lemma EntryBlockPrinted(e: Entry, level: nat)
    requires 1 <= level <= 6 && ValidKey(e.key) && ValidValue(e.value, level)
    ensures PrintedBlock(EntryBlock(e, level))
    ensures var s := HeadLine(level, e.key, "\n") + BodyText(NodeText(e.value));
      EndsWith(s, "\n") && SplitLines(s) == [EntryBlock(e, level).head] + EntryBlock(e, level).body
  {
    hide Head, Quiet, SplitLines, PlainBody, BodyText, HeadLine, Unbroken, ValidHeading, Seam;
    NodeTextIsOwn(e.value, level);
    var line, body := HeadLine(level, e.key, "\n"), BodyText(OwnText(e.value));
    BodyTextPlain(OwnText(e.value));
    PlainBodyLines(body);
    HeadLineIsHead(level, e.key, "\n");
    HeadLineHeads(level, e.key, "\n");
    NewlineSeam(line, body);
    SplitSeam(line, body);
    OneHeadLine(level, e.key);
    EndsWithRight(line, body);
  }

  lemma OneHeadLine(level: nat, key: string)
    requires Unbroken(key)
    ensures SplitLines(HeadLine(level, key, "\n")) == [HeadLine(level, key, "\n")]
  {
    hide SplitLines;
    var body := Repeat('#', level) + " " + key;
    assert Unbroken(body);
    UnbrokenLine(body, "\n");
    SeamEmpty(body + "\n");
    SplitCons(body + "\n", "");
    assert body + "\n" + "" == body + "\n";
    SplitNothing();
  }

  /** `s` is the printed text of `blocks`. */
  predicate Prints(s: string, blocks: seq<Block>) {
    (s == "" || EndsWith(s, "\n")) && SplitLines(s) == BlockLines(blocks) && Printed(blocks)
  }

  lemma PrintsConcat(a: string, x: seq<Block>, b: string, y: seq<Block>)
    requires Prints(a, x) && Prints(b, y)
    ensures Prints(a + b, x + y)
  {
    hide SplitLines, PrintedBlock, Seam, BlockLines;
    NewlineSeam(a, b);
    SplitSeam(a, b);
    BlockLinesConcat(x, y);
    if a == "" {
      assert a + b == b;
    } else {
      EndsJoin(a, b);
    }
  }

  lemma PrintsNothing()
    ensures Prints("", [])
  {
    SplitNothing();
  }

  /** The printed text of valid entries is the text of their blocks. */
  lemma {:induction false} PrintedEntries(es: seq<Entry>, level: nat)
    requires ValidEntries(es, level)
    ensures Prints(RenderEntries(es, level), EntryBlocks(es, level))
    decreases es, 1
  {
    hide ValidEntries, ValidKey, ValidValue, Prints, RenderEntry, EntryBlock, KidBlocks;
    if es == [] {
      PrintsNothing();
    } else {
      ValidTail(es, level);
      KeyNotReserved(es[0].key);
      PrintedEntry(es[0], level);
      PrintedEntries(es[1..], level);
      PrintsConcat(RenderEntry(es[0], level), [EntryBlock(es[0], level)] + KidBlocks(es[0].value, level + 1),
                   RenderEntries(es[1..], level), EntryBlocks(es[1..], level));
    }
  }

  lemma EndsJoin(a: string, b: string)
    requires EndsWith(a, "\n") && (b == "" || EndsWith(b, "\n"))
    ensures EndsWith(a + b, "\n")
  {
    if b == "" {
      assert a + b == a;
    } else {
      EndsWithRight(a, b);
    }
  }

  lemma KeyNotReserved(key: string)
    requires ValidKey(key)
    ensures !Reserved(key)
  {
  }

  lemma {:induction false} PrintedEntry(e: Entry, level: nat)
    requires 1 <= level <= 6 && ValidKey(e.key) && ValidValue(e.value, level)
    ensures Prints(RenderEntry(e, level), [EntryBlock(e, level)] + KidBlocks(e.value, level + 1))
    decreases e, 0
  {
    hide ValidEntries, ValidKey, BodyText, HeadLine, NodeText, EntryBlock, RenderEntries, EntryBlocks, Prints, PlainBody, Own;
    EntryPrints(e, level);
    NodeTextIsOwn(e.value, level);
    var b := match e.value case Leaf(_) => "" case Sub(sub) => RenderEntries(sub, level + 1);
    assert Prints(b, KidBlocks(e.value, level + 1)) by {
      if e.value.Sub? {
        PrintedEntries(Kids(e.value.entries), level + 1);
      } else {
        PrintsNothing();
      }
    }
    PrintsConcat(HeadLine(level, e.key, "\n") + BodyText(NodeText(e.value)), [EntryBlock(e, level)], b, KidBlocks(e.value, level + 1));
  }

  lemma EntryPrints(e: Entry, level: nat)
    requires 1 <= level <= 6 && ValidKey(e.key) && ValidValue(e.value, level)
    ensures Prints(HeadLine(level, e.key, "\n") + BodyText(NodeText(e.value)), [EntryBlock(e, level)])
  {
    hide ValidKey, ValidValue, BodyText, HeadLine, NodeText, EntryBlock, PrintedBlock, SplitLines;
    EntryBlockPrinted(e, level);
    OneBlockLines(EntryBlock(e, level));
  }

  /* ---------- rebuilding the dictionary from blocks ---------- */

  function DeeperRun(blocks: seq<Block>, level: nat): (n: nat)
    ensures n <= |blocks|
  {
    if blocks != [] && blocks[0].level > level then 1 + DeeperRun(blocks[1..], level) else 0
  }

  /** What the section walk builds, seen on the blocks alone. */
  function Build(blocks: seq<Block>, acc: seq<Entry>): seq<Entry>
    decreases |blocks|
  {
    if blocks == [] then acc
    else
      var b, n := blocks[0], DeeperRun(blocks[1..], blocks[0].level);
      var value := if n == 0 then Leaf(Join(b.body)) else Sub(Build(blocks[1..1 + n], OwnEntry(Join(b.body))));
      Build(blocks[1 + n..], Put(acc, b.heading, value))
  }

  /** The dictionary that comes back: every text as printed. */
  function PaddedValue(v: Value): Value
    decreases v, 1
  {
    match v
    case Leaf(t) => Leaf(BodyText(t))
    case Sub(es) => Sub(OwnEntry(BodyText(Own(es))) + PaddedEntries(Kids(es)))
  }

  function PaddedEntries(es: seq<Entry>): seq<Entry>
    decreases es, 0
  {
    if es == [] then [] else [Entry(es[0].key, PaddedValue(es[0].value))] + PaddedEntries(es[1..])
  }

  lemma {:induction false} DeeperRunIs(a: seq<Block>, b: seq<Block>, level: nat)
    requires forall k :: 0 <= k < |a| ==> a[k].level > level
    requires b == [] || b[0].level <= level
    ensures DeeperRun(a + b, level) == |a|
  {
    if a == [] {
      assert a + b == b;
    } else {
      assert (a + b)[1..] == a[1..] + b;
      DeeperRunIs(a[1..], b, level);
    }
  }

  predicate NotAbove(blocks: seq<Block>, level: nat) {
    forall k :: 0 <= k < |blocks| ==> blocks[k].level >= level
  }

  lemma {:induction false} BlockLevels(es: seq<Entry>, level: nat)
    ensures var blocks := EntryBlocks(es, level);
      NotAbove(blocks, level) && (es != [] ==> blocks != [] && blocks[0].level == level)
    decreases es, 1
  {
    hide EntryBlock, KidBlocks, NotAbove;
    if es == [] {
      NoneAbove(level);
    } else {
      KidLevels(es[0].value, level + 1);
      BlockLevels(es[1..], level);
      EntryLevel(es[0], level);
      LevelsJoin(EntryBlock(es[0], level), KidBlocks(es[0].value, level + 1), EntryBlocks(es[1..], level), level);
    }
  }

  lemma NoneAbove(level: nat)
    ensures NotAbove([], level)
  {
  }

  lemma LevelsJoin(first: Block, kids: seq<Block>, rest: seq<Block>, level: nat)
    requires first.level == level && NotAbove(kids, level + 1) && NotAbove(rest, level)
    ensures NotAbove([first] + kids + rest, level) && ([first] + kids + rest)[0] == first
  {
  }

  lemma EntryLevel(e: Entry, level: nat)
    ensures EntryBlock(e, level).level == level && EntryBlock(e, level).heading == e.key
    ensures Join(EntryBlock(e, level).body) == BodyText(OwnText(e.value))
  {
    JoinSplit(BodyText(OwnText(e.value)));
  }

  lemma {:induction false} KidLevels(v: Value, level: nat)
    ensures var blocks := KidBlocks(v, level);
      && NotAbove(blocks, level)
      && (v.Sub? && Kids(v.entries) != [] ==> blocks != [])
      && (v.Leaf? ==> blocks == [])
    decreases v, 0
  {
    if v.Sub? {
      BlockLevels(Kids(v.entries), level);
    }
  }

  predicate NewKeys(acc: seq<Entry>, es: seq<Entry>) {
    forall i, j :: 0 <= i < |acc| && 0 <= j < |es| ==> acc[i].key != es[j].key
  }

  lemma {:induction false} PutNew(acc: seq<Entry>, key: string, v: Value)
    requires forall i :: 0 <= i < |acc| ==> acc[i].key != key
    ensures Put(acc, key, v) == acc + [Entry(key, v)]
  {
    if acc != [] {
      PutNew(acc[1..], key, v);
    }
  }

  lemma NewKeysNext(acc: seq<Entry>, es: seq<Entry>, v: Value)
    requires DistinctKeys(es) && NewKeys(acc, es) && es != []
    ensures NewKeys(acc + [Entry(es[0].key, v)], es[1..])
  {
  }

  lemma OwnNotKid(direct: string, es: seq<Entry>, level: nat)
    requires ValidEntries(es, level)
    ensures NewKeys(OwnEntry(direct), es)
  {
    hide ValidHeading, Unbroken, ValidValue, Strip;
    assert forall i :: 0 <= i < |es| ==> ValidKey(es[i].key);
  }

  lemma BuildStep(b: Block, kids: seq<Block>, rest: seq<Block>, acc: seq<Entry>)
    requires (forall k :: 0 <= k < |kids| ==> kids[k].level > b.level) && (rest == [] || rest[0].level <= b.level)
    ensures var value := if kids == [] then Leaf(Join(b.body)) else Sub(Build(kids, OwnEntry(Join(b.body))));
      Build([b] + kids + rest, acc) == Build(rest, Put(acc, b.heading, value))
  {
    hide Put, OwnEntry, Join;
    var blocks := [b] + kids + rest;
    assert blocks[0] == b && blocks[1..] == kids + rest;
    DeeperRunIs(kids, rest, b.level);
    assert blocks[1..1 + |kids|] == kids && blocks[1 + |kids|..] == rest;
  }

  lemma EntryBlocksStep(es: seq<Entry>, level: nat)
    requires es != []
    ensures EntryBlocks(es, level)
      == [EntryBlock(es[0], level)] + KidBlocks(es[0].value, level + 1) + EntryBlocks(es[1..], level)
    ensures var rest := EntryBlocks(es[1..], level); rest == [] || rest[0].level <= level
  {
    hide EntryBlock, KidBlocks;
    BlockLevels(es[1..], level);
  }

  /** One round of the walk takes the first entry off. */
  lemma BuildFirst(e: Entry, es: seq<Entry>, level: nat, acc: seq<Entry>)
    requires es != [] && es[0] == e && NewKeys(acc, es)
    requires var kids, body := KidBlocks(e.value, level + 1), EntryBlock(e, level).body;
      PaddedValue(e.value) == if kids == [] then Leaf(Join(body)) else Sub(Build(kids, OwnEntry(Join(body))))
    ensures Build(EntryBlocks(es, level), acc)
      == Build(EntryBlocks(es[1..], level), acc + [Entry(e.key, PaddedValue(e.value))])
  {
    hide EntryBlock, KidBlocks, EntryBlocks, Put, OwnEntry, Join, Build, PaddedValue;
    EntryLevel(e, level);
    KidLevels(e.value, level + 1);
    EntryBlocksStep(es, level);
    BuildStep(EntryBlock(e, level), KidBlocks(e.value, level + 1), EntryBlocks(es[1..], level), acc);
    PutNew(acc, e.key, PaddedValue(e.value));
  }

  /** Building from the blocks of valid entries appends those entries, texts as printed. */
  lemma {:induction false} BuildEntries(es: seq<Entry>, level: nat, acc: seq<Entry>)
    requires ValidEntries(es, level) && NewKeys(acc, es)
    ensures Build(EntryBlocks(es, level), acc) == acc + PaddedEntries(es)
    decreases es, 1
  {
    if es == [] {
      assert EntryBlocks(es, level) == [];
    } else {
      BuildMore(es, level, acc);
    }
  }

  lemma {:induction false} BuildMore(es: seq<Entry>, level: nat, acc: seq<Entry>)
    requires ValidEntries(es, level) && NewKeys(acc, es) && es != []
    ensures Build(EntryBlocks(es, level), acc) == acc + PaddedEntries(es)
    decreases es, 0
  {
    hide ValidEntries, DistinctKeys, ValidKey, ValidValue, EntryBlock, KidBlocks, EntryBlocks, OwnEntry, BodyText, OwnText, Join,
      Build, PaddedValue, NewKeys;
    var v := PaddedValue(es[0].value);
    ValidTail(es, level);
    EntryLevel(es[0], level);
    BuildValue(es[0].value, level, EntryBlock(es[0], level));
    BuildFirst(es[0], es, level, acc);
    NewKeysNext(acc, es, v);
    BuildEntries(es[1..], level, acc + [Entry(es[0].key, v)]);
    assert PaddedEntries(es) == [Entry(es[0].key, v)] + PaddedEntries(es[1..]);
  }

  lemma {:induction false} BuildValue(v: Value, level: nat, b: Block)
    requires ValidValue(v, level) && Join(b.body) == BodyText(OwnText(v))
    ensures var kids := KidBlocks(v, level + 1);
      PaddedValue(v) == if kids == [] then Leaf(Join(b.body)) else Sub(Build(kids, OwnEntry(Join(b.body))))
    decreases v, 0
  {
    hide PlainBody, BodyText, OwnEntry, Join, ValidEntries, Build;
    KidLevels(v, level + 1);
    if v.Sub? {
      var own := OwnEntry(BodyText(Own(v.entries)));
      OwnNotKid(BodyText(Own(v.entries)), Kids(v.entries), level + 1);
      BuildEntries(Kids(v.entries), level + 1, own);
    }
  }

  /* ---------- the section walk is the block walk ---------- */

  predicate HeadsEnded(text: string) {
    forall i :: 0 <= i < |OutlineOf(text).blocks| ==> EndsWith(OutlineOf(text).blocks[i].head, "\n")
  }

  /** The fields of section `i` that the walk reads. */
  lemma WalkFields(text: string, i: nat)
    requires i < |OutlineOf(text).blocks| && EndsWith(OutlineOf(text).blocks[i].head, "\n")
    ensures var d := OutlineOf(text); var b, sec := d.blocks[i], SectionsOf(text)[i + 1];
      && |SectionsOf(text)| == |d.blocks| + 1
      && sec.level == b.level && sec.heading == b.heading
      && sec.start == Off(d, i) + |b.head| && sec.end == Off(d, EndIdx(d.blocks, i))
      && LineOffset(text, sec.line) == Off(d, i)
      && Slice(text, sec.start, Off(d, i + 1)) == Join(b.body)
  {
    hide OutlineOf, SectionsOf, SplitLines, Off, HeadAt, EndIdx, StackAt, SlashJoin, Upto;
    SectionsAre(text, i);
    BodyStart(text, i);
    UptoHead(text, i);
    BodySlice(text, i);
  }

  lemma BodySlice(text: string, i: nat)
    requires i < |OutlineOf(text).blocks|
    ensures var d := OutlineOf(text); var b := d.blocks[i]; var p := Off(d, i) + |b.head|;
      p <= Off(d, i + 1) <= |text| && text[p..Off(d, i + 1)] == Join(b.body)
  {
    hide OutlineOf, SplitLines;
    var d := OutlineOf(text);
    var b := d.blocks[i];
    OffCut(text, i);
    OffCut(text, i + 1);
    LinesBeforeStep(d, i, i + 1);
    assert d.blocks[i..i + 1] == [b];
    OneBlockLines(b);
    JoinConcat(LinesBefore(d, i), [b.head] + b.body);
    assert ([b.head] + b.body)[1..] == b.body;
    assert text[..Off(d, i + 1)] == text[..Off(d, i)] + b.head + Join(b.body);
  }

  lemma {:induction false} ChildEndIsRun(secs: seq<Section>, blocks: seq<Block>, c: nat, hi: nat, level: nat)
    requires |secs| == |blocks| && c <= hi <= |secs| && forall t :: 0 <= t < |secs| ==> secs[t].level == blocks[t].level
    ensures ChildEnd(secs, c, hi, level) == c + DeeperRun(blocks[c..hi], level)
    decreases hi - c
  {
    if c < hi {
      assert blocks[c..hi][0] == blocks[c] && blocks[c..hi][1..] == blocks[c + 1..hi];
      ChildEndIsRun(secs, blocks, c + 1, hi, level);
    }
  }

  lemma {:induction false} RunIsDeeper(blocks: seq<Block>, level: nat)
    ensures var n := DeeperRun(blocks, level);
      && (forall t :: 0 <= t < n ==> blocks[t].level > level) && (n < |blocks| ==> blocks[n].level <= level)
  {
    if blocks != [] && blocks[0].level > level {
      RunIsDeeper(blocks[1..], level);
    }
  }

  /** Block `hi` closes every block of the range. */
  predicate Closed(blocks: seq<Block>, lo: nat, hi: nat) {
    lo <= hi <= |blocks| && (hi < |blocks| ==> forall t :: lo <= t < hi ==> blocks[hi].level <= blocks[t].level)
  }

  lemma ClosedParts(blocks: seq<Block>, lo: nat, hi: nat)
    requires Closed(blocks, lo, hi) && lo < hi
    ensures var c1 := lo + 1 + DeeperRun(blocks[lo + 1..hi], blocks[lo].level);
      && c1 <= hi && Closed(blocks, lo + 1, c1) && Closed(blocks, c1, hi) && (c1 == lo + 1 ==> EndIdx(blocks, lo) == lo + 1)
  {
    var run := blocks[lo + 1..hi];
    var n := DeeperRun(run, blocks[lo].level);
    RunIsDeeper(run, blocks[lo].level);
    var c1 := lo + 1 + n;
    assert forall t :: 0 <= t < |run| ==> run[t] == blocks[lo + 1 + t];
    assert c1 < hi ==> blocks[c1] == run[n];
    forall t | lo + 1 <= t < c1 ensures blocks[t].level > blocks[lo].level {
      assert blocks[t] == run[t - lo - 1];
    }
    if c1 == lo + 1 && c1 < |blocks| {
      assert blocks[c1].level <= blocks[lo].level;
    }
  }

  /** One round of the section walk. */
  lemma WalkStep(text: string, lo: nat, hi: nat, acc: seq<Entry>)
    requires HeadsEnded(text) && Closed(OutlineOf(text).blocks, lo, hi) && lo < hi
    requires |SectionsOf(text)| == |OutlineOf(text).blocks| + 1
    ensures var blocks, secs := OutlineOf(text).blocks, SectionsOf(text)[1..];
      var own, c1 := Join(blocks[lo].body), lo + 1 + DeeperRun(blocks[lo + 1..hi], blocks[lo].level);
      && c1 <= hi
      && BuildFrom(text, secs, lo, hi, acc) == BuildFrom(text, secs, c1, hi, Put(acc, blocks[lo].heading,
           if c1 == lo + 1 then Leaf(own) else Sub(BuildFrom(text, secs, lo + 1, c1, OwnEntry(own)))))
  {
    hide OutlineOf, SectionsOf, Put, OwnEntry, Slice, LineOffset, EndIdx, Off, EndsWith, Closed, Join, DeeperRun;
    var blocks, secs := OutlineOf(text).blocks, SectionsOf(text)[1..];
    ClosedRange(blocks, lo, hi);
    forall t | 0 <= t < |secs| ensures secs[t].level == blocks[t].level {
      WalkFields(text, t);
    }
    ChildEndIsRun(secs, blocks, lo + 1, hi, blocks[lo].level);
    ClosedParts(blocks, lo, hi);
    WalkFields(text, lo);
    assert secs[lo] == SectionsOf(text)[lo + 1];
    if lo + 1 < hi {
      WalkFields(text, lo + 1);
      assert secs[lo + 1] == SectionsOf(text)[lo + 2];
    }
  }

  /** The same round on the blocks. */
  lemma BlockStep(blocks: seq<Block>, lo: nat, hi: nat, acc: seq<Entry>)
    requires lo < hi <= |blocks|
    ensures var own, c1 := Join(blocks[lo].body), lo + 1 + DeeperRun(blocks[lo + 1..hi], blocks[lo].level);
      && c1 <= hi
      && Build(blocks[lo..hi], acc) == Build(blocks[c1..hi], Put(acc, blocks[lo].heading,
           if c1 == lo + 1 then Leaf(own) else Sub(Build(blocks[lo + 1..c1], OwnEntry(own)))))
  {
    hide Put, OwnEntry, Join, Build, DeeperRun;
    var tail := blocks[lo + 1..hi];
    var n := DeeperRun(tail, blocks[lo].level);
    var c1 := lo + 1 + n;
    RunIsDeeper(tail, blocks[lo].level);
    var kids, rest := blocks[lo + 1..c1], blocks[c1..hi];
    assert kids == tail[..n] && rest == tail[n..];
    BuildStep(blocks[lo], kids, rest, acc);
    assert blocks[lo..hi] == [blocks[lo]] + kids + rest;
  }

  lemma {:induction false} WalkIsBuild(text: string, lo: nat, hi: nat, acc: seq<Entry>)
    requires HeadsEnded(text) && Closed(OutlineOf(text).blocks, lo, hi) && |SectionsOf(text)| == |OutlineOf(text).blocks| + 1
    ensures BuildFrom(text, SectionsOf(text)[1..], lo, hi, acc) == Build(OutlineOf(text).blocks[lo..hi], acc)
    decreases hi - lo, 1
  {
    hide OutlineOf, SectionsOf, HeadsEnded;
    ClosedRange(OutlineOf(text).blocks, lo, hi);
    if lo == hi {
      assert OutlineOf(text).blocks[lo..hi] == [];
    } else {
      WalkMore(text, lo, hi, acc);
    }
  }

  lemma {:induction false} WalkMore(text: string, lo: nat, hi: nat, acc: seq<Entry>)
    requires HeadsEnded(text) && Closed(OutlineOf(text).blocks, lo, hi) && |SectionsOf(text)| == |OutlineOf(text).blocks| + 1
    requires lo < hi
    ensures BuildFrom(text, SectionsOf(text)[1..], lo, hi, acc) == Build(OutlineOf(text).blocks[lo..hi], acc)
    decreases hi - lo, 0
  {
    hide OutlineOf, SectionsOf, Put, OwnEntry, Closed, HeadsEnded, BuildFrom, Build, Join, DeeperRun, EndIdx;
    var blocks := OutlineOf(text).blocks;
    ClosedRange(blocks, lo, hi);
    var own, c1 := Join(blocks[lo].body), lo + 1 + DeeperRun(blocks[lo + 1..hi], blocks[lo].level);
    WalkStep(text, lo, hi, acc);
    BlockStep(blocks, lo, hi, acc);
    ClosedParts(blocks, lo, hi);
    WalkIsBuild(text, lo + 1, c1, OwnEntry(own));
    var value := if c1 == lo + 1 then Leaf(own) else Sub(Build(blocks[lo + 1..c1], OwnEntry(own)));
    WalkIsBuild(text, c1, hi, Put(acc, blocks[lo].heading, value));
  }

  lemma ClosedRange(blocks: seq<Block>, lo: nat, hi: nat)
    requires Closed(blocks, lo, hi)
    ensures lo <= hi <= |blocks|
  {
  }

  /* ---------- the round trip ---------- */

  function PaddedRoot(d: seq<Entry>): seq<Entry> {
    var pre := Ended(RootText(d));
    if RootKids(d) == [] || Strip(pre) != "" then [Entry(PREAMBLE, Leaf(pre))] + PaddedEntries(RootKids(d))
    else PaddedEntries(RootKids(d))
  }

  lemma RootPrints(d: seq<Entry>)
    requires ValidRoot(d)
    ensures var s, blocks := DictToMarkdown(d, 1), EntryBlocks(RootKids(d), 1);
      && s == Ended(RootText(d)) + RenderEntries(RootKids(d), 1)
      && OutlineOf(s) == Doc(SplitLines(Ended(RootText(d))), blocks) && Printed(blocks)
  {
    hide ValidEntries, SplitLines, OutlineOf, RenderEntry, PlainBody, PrintedBlock, EntryBlocks, BlocksOk, Quiet, Balanced;
    var pre, kids := Ended(RootText(d)), RootKids(d);
    RootTextIs(d);
    PrintedEntries(kids, 1);
    var body := RenderEntries(kids, 1);
    EndedPlain(RootText(d));
    PlainBodyLines(pre);
    NewlineSeam(pre, body);
    SplitSeam(pre, body);
    PrintedOk(EntryBlocks(kids, 1));
    if body == "" {
      assert pre + body == pre;
    } else {
      EndsWithRight(pre, body);
    }
    OutlineOfLines(pre + body, Doc(SplitLines(pre), EntryBlocks(kids, 1)));
  }

  lemma EndedPlain(t: string)
    requires PlainBody(t)
    ensures PlainBody(Ended(t)) && (Ended(t) == "" || EndsWith(Ended(t), "\n")) && Strip(Ended(t)) == Strip(t)
  {
    hide HeadsIn, FenceEnd, Strip, Blank;
    AddEol(t, "\n");
    EndsWithRight(t, "\n");
    BlankEol();
    StripPadded("", t, "\n");
    assert "" + t + "\n" == t + "\n";
  }

  lemma RootTextIs(d: seq<Entry>)
    requires ValidRoot(d)
    ensures GetText(d, PREAMBLE) == RootText(d) && RenderEntries(d, 1) == RenderEntries(RootKids(d), 1)
  {
    hide PlainBody, RenderEntry;
    if !HasOwn(d, PREAMBLE) {
      assert forall i :: 0 <= i < |d| ==> ValidKey(d[i].key);
      NoContent(d);
    }
  }

  lemma PreambleNotKid(t: string, es: seq<Entry>, level: nat)
    requires ValidEntries(es, level)
    ensures NewKeys([Entry(PREAMBLE, Leaf(t))], es) && NewKeys([], es)
  {
    hide ValidHeading, Unbroken, ValidValue;
    assert forall i :: 0 <= i < |es| ==> ValidKey(es[i].key);
  }

  /** Reading a printed dictionary back: the same entries in the same order, each text as it was printed. */
  lemma PrintThenRead(d: seq<Entry>)
    requires ValidRoot(d)
    ensures SectionsToDict(DictToMarkdown(d, 1)) == PaddedRoot(d)
  {
    hide ValidEntries, SplitLines, OutlineOf, SectionsOf, DictToMarkdown, RenderEntries, EntryBlocks, BuildFrom, Build, Strip,
      PlainBody, PrintedBlock, PaddedEntries;
    var s, kids := DictToMarkdown(d, 1), RootKids(d);
    var pre, blocks := Ended(RootText(d)), EntryBlocks(RootKids(d), 1);
    RootPrints(d);
    ReadPreamble(s, pre, blocks);
    NoKids(kids, s, pre);
    BlockLevels(kids, 1);
    if kids != [] {
      var root := if Strip(pre) != "" then [Entry(PREAMBLE, Leaf(pre))] else [];
      PreambleNotKid(pre, kids, 1);
      BuildEntries(kids, 1, root);
      WalkAll(s, root);
      assert [] + PaddedEntries(kids) == PaddedEntries(kids);
    }
  }

  lemma NoKids(kids: seq<Entry>, s: string, pre: string)
    requires s == pre + RenderEntries(kids, 1)
    ensures kids == [] ==> EntryBlocks(kids, 1) == [] && PaddedEntries(kids) == [] && s == pre
  {
    if kids == [] {
      assert RenderEntries(kids, 1) == "";
    }
  }

  lemma ReadPreamble(s: string, pre: string, blocks: seq<Block>)
    requires OutlineOf(s) == Doc(SplitLines(pre), blocks)
    ensures |SectionsOf(s)| == |blocks| + 1
    ensures Slice(s, SectionsOf(s)[0].start, SectionsOf(s)[0].end) == pre
  {
    hide OutlineOf, SectionsOf, SplitLines;
    PreambleIs(s);
    OffCut(s, 0);
    JoinSplit(pre);
    NoLinesBefore(OutlineOf(s));
    assert s[0..|pre|] == s[..|pre|];
  }

  lemma NoLinesBefore(d: Doc)
    ensures LinesBefore(d, 0) == d.pre
  {
  }

  lemma WalkAll(s: string, root: seq<Entry>)
    requires Printed(OutlineOf(s).blocks)
    ensures var blocks := OutlineOf(s).blocks;
      |SectionsOf(s)| == |blocks| + 1 && BuildFrom(s, SectionsOf(s)[1..], 0, |blocks|, root) == Build(blocks, root)
  {
    hide OutlineOf, SectionsOf, Build, BuildFrom, BlockOk, Balanced, EndsWith;
    var blocks := OutlineOf(s).blocks;
    PreambleIs(s);
    assert forall i :: 0 <= i < |blocks| ==> PrintedBlock(blocks[i]);
    assert blocks[0..|blocks|] == blocks;
    WalkIsBuild(s, 0, |blocks|, root);
  }

  lemma {:induction false} PaddedNorm(es: seq<Entry>, level: nat)
    requires ValidEntries(es, level)
    ensures NormEntries(PaddedEntries(es)) == NormEntries(es)
    decreases es, 1
  {
    hide ValidEntries, ValidKey, NormValue, PaddedValue;
    if es != [] {
      ValidTail(es, level);
      KeyNotReserved(es[0].key);
      PaddedValueNorm(es[0].value, level);
      PaddedNorm(es[1..], level);
    }
  }

  lemma {:induction false} PaddedValueNorm(v: Value, level: nat)
    requires ValidValue(v, level)
    ensures NormValue(PaddedValue(v)) == NormValue(v)
    decreases v, 0
  {
    hide ValidEntries, Strip, BodyText, PlainBody;
    match v
    case Leaf(t) => BodyTextStrip(t);
    case Sub(es) =>
      var kids := Kids(es);
      BodyTextStrip(Own(es));
      PaddedNorm(kids, level + 1);
      OwnNorm(es, PaddedEntries(kids));
  }

  lemma OwnNorm(es: seq<Entry>, padded: seq<Entry>)
    requires NormEntries(padded) == NormEntries(Kids(es)) && Strip(BodyText(Own(es))) == Strip(Own(es))
    ensures NormEntries(OwnEntry(BodyText(Own(es))) + padded) == NormEntries(es)
  {
    hide BodyText;
    var own := OwnEntry(BodyText(Own(es)));
    if own == [] {
      assert own + padded == padded;
    } else {
      assert (own + padded)[1..] == padded;
    }
    assert !HasOwn(es, CONTENT) ==> Strip("") == "";
  }

  /**
   * Printing any valid dictionary and reading the text back gives the same tree, in the same order, up to
   * stripping each text.
   */
  lemma DictRoundTrip(d: seq<Entry>)
    requires ValidRoot(d)
    ensures NormEntries(SectionsToDict(DictToMarkdown(d, 1))) == NormEntries(d)
  {
    hide ValidEntries, SectionsToDict, DictToMarkdown, Strip, PlainBody, PaddedEntries;
    PrintThenRead(d);
    var pre, kids := Ended(RootText(d)), RootKids(d);
    PaddedNorm(kids, 1);
    EndedPlain(RootText(d));
    var r := PaddedRoot(d);
    if r != PaddedEntries(kids) {
      assert r[1..] == PaddedEntries(kids);
    }
    RootNorm(d);
  }

  lemma RootNorm(d: seq<Entry>)
    requires ValidRoot(d)
    ensures NormEntries(d)
      == (if Strip(RootText(d)) == "" then [] else [Entry(PREAMBLE, Leaf(Strip(RootText(d))))]) + NormEntries(RootKids(d))
  {
    hide PlainBody, ValidEntries;
    assert Strip("") == "";
  }
}
