/**
 * ATX headings (CommonMark section 4.2) and the outline of a document: a preamble followed by
 * blocks, each block a heading line with the lines up to the next heading.
 */
module Outline {
  import opened Text
  import opened MarkdownFence

  datatype Heading = Heading(level: nat, text: string)

  predicate IsPad(c: char) {
    c == ' ' || c == '\t'
  }

  function PadLen(s: string): (n: nat)
    ensures n <= |s| && (forall i :: 0 <= i < n ==> IsPad(s[i])) && (n < |s| ==> !IsPad(s[n]))
  {
    if s != "" && IsPad(s[0]) then 1 + PadLen(s[1..]) else 0
  }

  /** `s` matches `[ \t]*#*[ \t]*`. */
  predicate ClosingRun(s: string) {
    var hashes := s[PadLen(s)..];
    var pads := hashes[RunLen(hashes, '#')..];
    PadLen(pads) == |pads|
  }

  /** Length of the lazy `.+?`: the shortest prefix of at least `k` characters before a closing run. */
  function TextLen(s: string, k: nat): (n: nat)
    requires k <= |s|
    ensures k <= n <= |s|
    decreases |s| - k
  {
    if k == |s| || ClosingRun(s[k..]) then k else TextLen(s, k + 1)
  }

  /** `^(#{1,6})[ \t]+(.+?)[ \t]*#*[ \t]*$` on the line without its break; the text is stripped. */
  function HeadingOf(line: string): Option<Heading> {
    var s := ChopBreak(line);
    var level := RunLen(s, '#');
    if !(1 <= level <= 6) then None
    else
      var t := s[level..];
      var rest := t[PadLen(t)..];
      if PadLen(t) == 0 then None
      else if rest != "" then Some(Heading(level, Strip(rest[..TextLen(rest, 1)])))
      else if PadLen(t) >= 2 then Some(Heading(level, ""))
      else None
  }

  /** The heading read at a line when the fence state before it is `f`. */
  function Head(f: Fence, line: string): Option<Heading> {
    if Visible(f, line) then HeadingOf(line) else None
  }

  /** No line of `lines` is read as a heading. */
  predicate Quiet(f: Fence, lines: seq<string>)
    decreases |lines|
  {
    lines != [] ==> Head(f, lines[0]).None? && Quiet(Next(f, lines[0]), lines[1..])
  }

  predicate Balanced(lines: seq<string>) {
    FenceAfter(NoFence, lines) == NoFence
  }

  datatype Block = Block(level: nat, heading: string, head: string, body: seq<string>)

  datatype Doc = Doc(pre: seq<string>, blocks: seq<Block>)

  function OutlineFrom(f: Fence, lines: seq<string>): Doc
    decreases |lines|
  {
    if lines == [] then Doc([], [])
    else
      var rest := OutlineFrom(Next(f, lines[0]), lines[1..]);
      match Head(f, lines[0])
      case None => Doc([lines[0]] + rest.pre, rest.blocks)
      case Some(h) => Doc([], [Block(h.level, h.text, lines[0], rest.pre)] + rest.blocks)
  }

  function OutlineOf(text: string): Doc {
    OutlineFrom(NoFence, SplitLines(text))
  }

  /** An outline with one more line in front, read as `h`. */
  function ConsLine(h: Option<Heading>, line: string, rest: Doc): Doc {
    match h
    case None => Doc([line] + rest.pre, rest.blocks)
    case Some(h) => Doc([], [Block(h.level, h.text, line, rest.pre)] + rest.blocks)
  }

  lemma OutlineIsCons(f: Fence, lines: seq<string>)
    requires lines != []
    ensures OutlineFrom(f, lines) == ConsLine(Head(f, lines[0]), lines[0], OutlineFrom(Next(f, lines[0]), lines[1..]))
  {
    hide Head, Next;
  }

  function BlockLines(blocks: seq<Block>): seq<string> {
    if blocks == [] then [] else [blocks[0].head] + blocks[0].body + BlockLines(blocks[1..])
  }

  function LinesOf(d: Doc): seq<string> {
    d.pre + BlockLines(d.blocks)
  }

  predicate BlockOk(b: Block) {
    Head(NoFence, b.head) == Some(Heading(b.level, b.heading)) && Quiet(NoFence, b.body)
  }

  /** A list of blocks that reads back as itself: only the last may leave a fence open. */
  predicate BlocksOk(blocks: seq<Block>) {
    && (forall k :: 0 <= k < |blocks| ==> BlockOk(blocks[k]))
    && (forall k :: 0 <= k < |blocks| - 1 ==> Balanced(blocks[k].body))
  }

  predicate DocOk(d: Doc) {
    Quiet(NoFence, d.pre) && (d.blocks != [] ==> Balanced(d.pre)) && BlocksOk(d.blocks)
  }

  /* ---------- lines and outlines correspond one to one ---------- */

  lemma {:induction false} LinesOfOutline(f: Fence, lines: seq<string>)
    ensures LinesOf(OutlineFrom(f, lines)) == lines
    decreases |lines|
  {
    hide Head, Next;
    if lines != [] {
      var d, rest := OutlineFrom(f, lines), OutlineFrom(Next(f, lines[0]), lines[1..]);
      LinesOfOutline(Next(f, lines[0]), lines[1..]);
      assert lines == [lines[0]] + LinesOf(rest);
      match Head(f, lines[0])
      case None =>
        assert d.pre == [lines[0]] + rest.pre && d.blocks == rest.blocks;
      case Some(h) =>
        assert d.pre == [] && d.blocks[1..] == rest.blocks;
    }
  }

  lemma {:induction false} OutlineOk(f: Fence, lines: seq<string>)
    ensures var d := OutlineFrom(f, lines);
      Quiet(f, d.pre) && (d.blocks != [] ==> FenceAfter(f, d.pre) == NoFence) && BlocksOk(d.blocks)
    decreases |lines|
  {
    hide Head, Next, BlockOk, Balanced;
    if lines != [] {
      var rest := OutlineFrom(Next(f, lines[0]), lines[1..]);
      OutlineOk(Next(f, lines[0]), lines[1..]);
      match Head(f, lines[0])
      case None =>
        QuietCons(f, lines[0], rest.pre);
      case Some(h) =>
        HeadKeepsNoFence(f, lines[0]);
        assert BlockOk(Block(h.level, h.text, lines[0], rest.pre)) && (rest.blocks != [] ==> Balanced(rest.pre)) by {
          BlockFromHead(h, lines[0], rest.pre, rest.blocks != []);
        }
        BlocksOkCons(Block(h.level, h.text, lines[0], rest.pre), rest.blocks);
    }
  }

  lemma BlockFromHead(h: Heading, line: string, body: seq<string>, more: bool)
    requires Head(NoFence, line) == Some(h) && Quiet(NoFence, body) && (more ==> FenceAfter(NoFence, body) == NoFence)
    ensures BlockOk(Block(h.level, h.text, line, body)) && (more ==> Balanced(body))
  {
    hide Head, Quiet, FenceAfter;
  }

  lemma QuietCons(f: Fence, line: string, rest: seq<string>)
    requires Head(f, line).None? && Quiet(Next(f, line), rest)
    ensures Quiet(f, [line] + rest) && FenceAfter(f, [line] + rest) == FenceAfter(Next(f, line), rest)
  {
    hide Head, Next;
    assert ([line] + rest)[1..] == rest;
  }

  lemma BlocksOkCons(b: Block, rest: seq<Block>)
    requires BlockOk(b) && BlocksOk(rest) && (rest != [] ==> Balanced(b.body))
    ensures BlocksOk([b] + rest)
  {
    hide BlockOk, Balanced;
    var bs := [b] + rest;
    forall k | 0 <= k < |bs| - 1 ensures Balanced(bs[k].body) {
      if k > 0 {
        assert bs[k] == rest[k - 1];
      }
    }
  }

  lemma HeadKeepsNoFence(f: Fence, line: string)
    requires Head(f, line).Some?
    ensures f == NoFence && Next(f, line) == NoFence
  {
    hide Next, HeadingOf;
  }

  lemma {:induction false} OutlinePrepend(f: Fence, quiet: seq<string>, tail: seq<string>)
    requires Quiet(f, quiet)
    ensures var d := OutlineFrom(FenceAfter(f, quiet), tail);
      OutlineFrom(f, quiet + tail) == Doc(quiet + d.pre, d.blocks)
    decreases |quiet|
  {
    hide Head, Next, OutlineFrom;
    if quiet == [] {
      assert quiet + tail == tail;
    } else {
      assert (quiet + tail)[1..] == quiet[1..] + tail;
      OutlinePrepend(Next(f, quiet[0]), quiet[1..], tail);
      OutlineIsCons(f, quiet + tail);
      assert quiet == [quiet[0]] + quiet[1..];
    }
  }

  lemma OutlineCons(b: Block, tail: seq<string>)
    requires BlockOk(b)
    ensures var d := OutlineFrom(FenceAfter(NoFence, b.body), tail);
      OutlineFrom(NoFence, [b.head] + b.body + tail) == Doc([], [b.(body := b.body + d.pre)] + d.blocks)
  {
    hide Head, Next;
    var lines := [b.head] + b.body + tail;
    HeadKeepsNoFence(NoFence, b.head);
    assert lines[0] == b.head && lines[1..] == b.body + tail;
    OutlinePrepend(NoFence, b.body, tail);
  }

  lemma {:induction false} OutlineOfBlocks(blocks: seq<Block>)
    requires BlocksOk(blocks)
    ensures OutlineFrom(NoFence, BlockLines(blocks)) == Doc([], blocks)
  {
    hide BlockOk, BlocksOk, Next, Head;
    if blocks != [] {
      var b, rest := blocks[0], blocks[1..];
      BlocksOkTail(blocks);
      OutlineOfBlocks(rest);
      OutlineCons(b, BlockLines(rest));
      assert b.body + [] == b.body;
      assert blocks == [b] + rest;
    }
  }

  lemma BlocksOkTail(blocks: seq<Block>)
    requires BlocksOk(blocks) && blocks != []
    ensures BlockOk(blocks[0]) && BlocksOk(blocks[1..]) && (|blocks| > 1 ==> Balanced(blocks[0].body))
  {
    hide BlockOk, Balanced;
    forall k | 0 <= k < |blocks[1..]| - 1 ensures Balanced(blocks[1..][k].body) {
      assert blocks[1..][k] == blocks[k + 1];
    }
  }

  /** Every well-formed outline is the outline of its own lines. */
  lemma OutlineRoundTrip(d: Doc)
    requires DocOk(d)
    ensures OutlineFrom(NoFence, LinesOf(d)) == d
  {
    OutlineOfBlocks(d.blocks);
    OutlinePrepend(NoFence, d.pre, BlockLines(d.blocks));
  }

  lemma TextOfOutline(text: string)
    ensures DocOk(OutlineOf(text))
    ensures LinesOf(OutlineOf(text)) == SplitLines(text)
    ensures Join(LinesOf(OutlineOf(text))) == text
  {
    OutlineOk(NoFence, SplitLines(text));
    LinesOfOutline(NoFence, SplitLines(text));
    JoinSplit(text);
  }

  /* ---------- what a valid heading is ---------- */

  predicate EolOk(eol: string) {
    eol == "\n" || eol == "\r\n"
  }

  function HeadLine(level: nat, heading: string, eol: string): string {
    Repeat('#', level) + " " + heading + eol
  }

  /** Trimmed, not empty, and not eaten by the closing `#` run. */
  predicate ValidHeading(s: string) {
    s != "" && Strip(s) == s && (|s| == 1 || s[|s| - 1] != '#')
  }

  lemma ChopEol(s: string, eol: string)
    requires EolOk(eol)
    ensures ChopBreak(s + eol) == ChopBreak(s)
  {
    assert (s + "\n")[..|s|] == s;
    assert (s + "\r")[..|s|] == s;
    assert (s + "\r\n")[..|s| + 1] == s + "\r";
  }

  lemma {:induction false} ChopBreakPrefix(s: string)
    ensures ChopBreak(s) <= s
    ensures forall i :: |ChopBreak(s)| <= i < |s| ==> s[i] == '\n' || s[i] == '\r'
  {
    if s != "" && (s[|s| - 1] == '\n' || s[|s| - 1] == '\r') {
      ChopBreakPrefix(s[..|s| - 1]);
    }
  }

  lemma ClosingRunLast(s: string)
    requires ClosingRun(s) && s != ""
    ensures IsPad(s[|s| - 1]) || s[|s| - 1] == '#'
  {
    var hashes := s[PadLen(s)..];
    var pads := hashes[RunLen(hashes, '#')..];
    if pads != "" {
      assert pads[|pads| - 1] == s[|s| - 1];
    } else if hashes != "" {
      assert hashes[|hashes| - 1] == s[|s| - 1];
    }
  }

  lemma NotClosingRun(s: string)
    requires s != "" && !IsSpace(s[|s| - 1]) && s[|s| - 1] != '#'
    ensures !ClosingRun(s)
  {
    if ClosingRun(s) {
      ClosingRunLast(s);
    }
  }

  lemma {:induction false} TextLenWhole(s: string, k: nat)
    requires 1 <= k <= |s| && !IsSpace(s[|s| - 1]) && s[|s| - 1] != '#'
    ensures TextLen(s, k) == |s|
    decreases |s| - k
  {
    hide ClosingRun;
    if k < |s| {
      assert s[k..][|s[k..]| - 1] == s[|s| - 1];
      NotClosingRun(s[k..]);
      TextLenWhole(s, k + 1);
    }
  }

  lemma {:induction false} TextLenStops(s: string, k: nat, at: nat)
    requires k <= at <= |s| && ClosingRun(s[at..])
    ensures TextLen(s, k) <= at
    decreases at - k
  {
    hide ClosingRun;
    if k < at && !ClosingRun(s[k..]) {
      TextLenStops(s, k + 1, at);
    }
  }

  lemma {:induction false} RunThen(n: nat, c: char, s: string)
    requires s == "" || s[0] != c
    ensures RunLen(Repeat(c, n) + s, c) == n
  {
    if n == 0 {
      assert Repeat(c, n) + s == s;
    } else {
      assert (Repeat(c, n) + s)[1..] == Repeat(c, n - 1) + s;
      RunThen(n - 1, c, s);
    }
  }

  /** The pieces `HeadingOf` sees in a written heading line. */
  lemma HeadLineParts(level: nat, heading: string, eol: string) returns (t: string, rest: string)
    requires 1 <= level <= 6 && EolOk(eol)
    ensures t <= " " + heading && t != "" && t[0] == ' ' && PadLen(t) > 0
    ensures ValidHeading(heading) ==> t == " " + heading
    ensures rest == t[PadLen(t)..]
    ensures HeadingOf(HeadLine(level, heading, eol)) ==
      if rest != "" then Some(Heading(level, Strip(rest[..TextLen(rest, 1)])))
      else if PadLen(t) >= 2 then Some(Heading(level, ""))
      else None
  {
    var body := Repeat('#', level) + " " + heading;
    ChopEol(body, eol);
    t := ChoppedHead(level, heading);
    RunThen(level, '#', t);
    assert (Repeat('#', level) + t)[level..] == t;
    hide RunLen, TextLen, ChopBreak, Strip;
    rest := t[PadLen(t)..];
  }

  lemma ChoppedHead(level: nat, heading: string) returns (t: string)
    ensures ChopBreak(Repeat('#', level) + " " + heading) == Repeat('#', level) + t
    ensures t <= " " + heading && t != "" && t[0] == ' '
    ensures ValidHeading(heading) ==> t == " " + heading
  {
    var body := Repeat('#', level) + " " + heading;
    ChopBreakPrefix(body);
    var s := ChopBreak(body);
    assert body[level] == ' ';
    t := s[level..];
    assert s == Repeat('#', level) + t;
    if ValidHeading(heading) {
      StripEnds(heading);
      assert body[|body| - 1] == heading[|heading| - 1];
      assert s == body;
    }
  }

  /**
   * Taken as one line, a written heading line matches with its own text exactly when that text is valid:
   * the code strips it, needs at least one character, and drops a closing `#` run.
   */
  lemma HeadLineReadsBack(level: nat, heading: string, eol: string)
    requires 1 <= level <= 6 && EolOk(eol)
    ensures HeadingOf(HeadLine(level, heading, eol)) == Some(Heading(level, heading)) <==> ValidHeading(heading)
  {
    var t, rest := HeadLineParts(level, heading, eol);
    if ValidHeading(heading) {
      ValidHeadingKept(heading, t);
    } else if rest != "" {
      hide HeadingOf;
      InvalidHeadingChanges(heading, t, rest);
    } else {
      assert heading == "" ==> t == " ";
    }
  }

  lemma ValidHeadingKept(heading: string, t: string)
    requires ValidHeading(heading) && t == " " + heading
    ensures t[PadLen(t)..] == heading && Strip(heading[..TextLen(heading, 1)]) == heading
  {
    StripEnds(heading);
    assert t[1..] == heading;
    assert PadLen(t) == 1 + PadLen(heading);
    if |heading| > 1 {
      TextLenWhole(heading, 1);
    }
    assert heading[..|heading|] == heading;
  }

  lemma InvalidHeadingChanges(heading: string, t: string, rest: string)
    requires !ValidHeading(heading) && t <= " " + heading && PadLen(t) > 0
    requires rest == t[PadLen(t)..] && rest != ""
    ensures Strip(rest[..TextLen(rest, 1)]) != heading
  {
    var g := rest[..TextLen(rest, 1)];
    StripEnds(g);
    if Strip(g) == heading {
      assert |rest| == |t| - PadLen(t) && |t| <= 1 + |heading|;
      assert rest == heading by {
        assert t == " " + heading && PadLen(t) == 1;
      }
      StripInk(heading);
      HashEnded(heading);
    }
  }

  lemma ClosingHash()
    ensures ClosingRun("#")
  {
    assert PadLen("#") == 0;
    assert "#"[0..] == "#";
    assert RunLen("#", '#') == 1;
    assert "#"[1..] == "";
  }

  lemma HashEnded(s: string)
    requires |s| > 1 && s[|s| - 1] == '#'
    ensures TextLen(s, 1) < |s|
  {
    hide ClosingRun, TextLen;
    assert s[|s| - 1..] == "#";
    ClosingHash();
    TextLenStops(s, 1, |s| - 1);
  }

  /** A valid heading line is a heading wherever no fence is open. */
  lemma HeadLineIsHead(level: nat, heading: string, eol: string)
    requires 1 <= level <= 6 && EolOk(eol) && ValidHeading(heading)
    ensures Head(NoFence, HeadLine(level, heading, eol)) == Some(Heading(level, heading))
  {
    hide HeadingOf, Next, ValidHeading;
    HeadLineReadsBack(level, heading, eol);
    InkIsNotFence(HeadLine(level, heading, eol));
  }

  lemma HeadingInk(line: string)
    requires HeadingOf(line).Some?
    ensures line != "" && line[0] == '#'
    ensures 1 <= HeadingOf(line).value.level <= 6
  {
    ChopBreakPrefix(line);
  }
}
