/** Inserting a section, and appending to one. */
module Insert {
  import opened Text
  import opened MarkdownFence
  import opened Outline
  import opened Sections
  import opened Splice
  import opened Edits
  import opened Body
  import opened Replace

  predicate CrlfAt(s: string, i: nat) {
    i < |s| - 1 && s[i] == '\r' && s[i + 1] == '\n'
  }

  predicate HasCrlf(s: string) {
    exists i: nat :: i < |s| && CrlfAt(s, i)
  }

  function DocEol(text: string): (eol: string)
    ensures EolOk(eol)
  {
    if HasCrlf(text) then "\r\n" else "\n"
  }

  /** `replace("\n", "\r\n")`. */
  function ToCrlf(s: string): string {
    if s == "" then "" else (if s[0] == '\n' then "\r\n" else [s[0]]) + ToCrlf(s[1..])
  }

  function EnsureEol(s: string, eol: string, end: string): string {
    if EndsWith(s, end) then s else s + eol
  }

  function EnsureBlankBefore(prefix: string, eol: string): string {
    if prefix == "" then "" else EnsureEol(EnsureEol(prefix, eol, eol), eol, eol + eol)
  }

  function EnsureBlankAfter(block: string, suffix: string, eol: string): string {
    if suffix != "" then EnsureEol(block, eol, eol + eol) else block
  }

  /** The inserted body in the document's line ending, ended by a line break. */
  function InsertBody(body: string, eol: string): string {
    if body == "" then ""
    else
      var converted := if eol == "\r\n" && !HasCrlf(body) && '\n' in body then ToCrlf(body) else body;
      EnsureEol(converted, eol, eol)
  }

  /** The core of `insert_section`, once the offset is known. */
  function InsertAt(text: string, heading: string, level: nat, offset: nat, body: string): (string, bool)
    requires offset <= |text|
  {
    var (bodyN, normalized) := StripLeadingHeading(body, level, heading);
    var eol := DocEol(text);
    var block := HeadLine(level, heading, eol) + InsertBody(bodyN, eol);
    var prefix := EnsureBlankBefore(text[..offset], eol);
    var padded := EnsureEol(EnsureBlankAfter(block, text[offset..], eol), eol, eol);
    (prefix + padded + text[offset..], normalized)
  }

  datatype Position = AtEnd | After(anchor: nat) | Before(anchor: nat)

  /** The block before which the new section goes: anchors are indices into the section list. */
  function InsertIndex(text: string, position: Position): (m: nat)
    requires position.AtEnd? || 1 <= position.anchor < |SectionsOf(text)|
    ensures m <= |OutlineOf(text).blocks|
  {
    PreambleIs(text);
    match position
    case AtEnd => |OutlineOf(text).blocks|
    case After(k) => EndIdx(OutlineOf(text).blocks, k - 1)
    case Before(k) => k - 1
  }

  function AnchorOffset(text: string, sec: Section, after: bool): (o: nat)
    requires sec.end <= |text| && 1 <= sec.line <= |SplitLines(text)| + 1
    ensures o <= |text|
  {
    CutAt(text, sec.line - 1);
    if after then sec.end else Upto(SplitLines(text), sec.line - 1)
  }

  function InsertOffset(text: string, position: Position): (o: nat)
    requires position.AtEnd? || 1 <= position.anchor < |SectionsOf(text)|
    ensures o <= |text|
  {
    if position.AtEnd? then |text|
    else
      SectionBounds(text, position.anchor);
      AnchorOffset(text, SectionsOf(text)[position.anchor], position.After?)
  }

  function InsertSection(text: string, heading: string, level: nat, position: Position, body: string): Option<(string, bool)>
    requires position.AtEnd? || 1 <= position.anchor < |SectionsOf(text)|
  {
    if 1 <= level <= 6 then Some(InsertAt(text, heading, level, InsertOffset(text, position), body)) else None
  }

  lemma InsertOffsetIsBlock(text: string, position: Position)
    requires position.AtEnd? || 1 <= position.anchor < |SectionsOf(text)|
    ensures InsertOffset(text, position) == Off(OutlineOf(text), InsertIndex(text, position))
  {
    hide OutlineOf, SectionsOf, SplitLines, Off, HeadAt, EndIdx, Upto;
    OffEnd(text);
    if !position.AtEnd? {
      PreambleIs(text);
      SectionsAre(text, position.anchor - 1);
      UptoHead(text, position.anchor - 1);
    }
  }

  /* ---------- line endings ---------- */

  lemma {:induction false} ToCrlfConcat(a: string, b: string)
    ensures ToCrlf(a + b) == ToCrlf(a) + ToCrlf(b)
  {
    if a == "" {
      assert a + b == b;
    } else {
      assert (a + b)[1..] == a[1..] + b;
      ToCrlfConcat(a[1..], b);
    }
  }

  lemma {:induction false} ToCrlfNone(s: string)
    requires '\n' !in s
    ensures ToCrlf(s) == s
  {
    if s != "" {
      assert s[0] in s;
      ToCrlfNone(s[1..]);
      assert s == [s[0]] + s[1..];
    }
  }

  /** A line that ends in "\n" has it only there; any other line has none. */
  lemma {:induction false} NewlineAtEnd(l: string)
    requires OneLine(l)
    ensures EndsWith(l, "\n") ==> '\n' !in l[..|l| - 1]
    ensures !EndsWith(l, "\n") ==> '\n' !in l
  {
    if EndsWith(l, "\n") {
      OneLineNewline(l);
    } else {
      NoNewline(l);
    }
  }

  lemma {:induction false} NoNewline(l: string)
    requires OneLine(l) && !EndsWith(l, "\n")
    ensures '\n' !in l
  {
    if IsBreak(l[0]) {
      assert |l| <= 2;
      assert l[|l| - 1..] == [l[|l| - 1]];
    } else if |l| > 1 {
      assert l[1..][|l[1..]| - 1..] == l[|l| - 1..];
      NoNewline(l[1..]);
      assert l == [l[0]] + l[1..];
    }
  }

  /** Converting one line keeps how it is read. */
  lemma CrlfLine(f: Fence, l: string)
    requires OneLine(l) && !HasCrlf(l)
    ensures OneLine(ToCrlf(l)) && Next(f, ToCrlf(l)) == Next(f, l) && Head(f, ToCrlf(l)) == Head(f, l)
    ensures EndsWith(l, "\n") ==> EndsWith(ToCrlf(l), "\n")
    ensures !EndsWith(l, "\n") ==> ToCrlf(l) == l
  {
    hide Head, Next;
    NewlineAtEnd(l);
    if EndsWith(l, "\n") {
      var x := l[..|l| - 1];
      assert l == x + "\n";
      ToCrlfConcat(x, "\n");
      ToCrlfNone(x);
      assert ToCrlf("\n") == "\r\n";
      LineEolKept(f, x, "\n");
      LineEolKept(f, x, "\r\n");
      CrlfOneLine(x, l);
      assert (x + "\r\n")[|x| + 1..] == "\n";
    } else {
      ToCrlfNone(l);
    }
  }

  lemma {:induction false} CrlfOneLine(x: string, l: string)
    requires l == x + "\n" && OneLine(l) && !HasCrlf(l)
    ensures OneLine(x + "\r\n")
  {
    if x == "" {
      assert x + "\r\n" == "\r\n";
    } else {
      assert l[1..] == x[1..] + "\n";
      assert (x + "\r\n")[1..] == x[1..] + "\r\n";
      assert l == [l[0]] + l[1..];
      NoCrlfParts([l[0]], l[1..]);
      assert !CrlfAt(l, 0);
      if !IsBreak(l[0]) {
        CrlfOneLine(x[1..], l[1..]);
      }
    }
  }

  lemma NoCrlfParts(l: string, rest: string)
    requires !HasCrlf(l + rest)
    ensures !HasCrlf(l) && !HasCrlf(rest)
  {
    var s := l + rest;
    forall i: nat | i < |l| ensures !CrlfAt(l, i) {
      assert !CrlfAt(s, i);
    }
    forall i: nat | i < |rest| ensures !CrlfAt(rest, i) {
      assert !CrlfAt(s, |l| + i);
    }
  }

  lemma CrlfSeam(l: string, rest: string)
    requires OneLine(l) && Seam(l, rest)
    requires EndsWith(l, "\n") ==> EndsWith(ToCrlf(l), "\n")
    requires !EndsWith(l, "\n") ==> ToCrlf(l) == l
    ensures Seam(ToCrlf(l), ToCrlf(rest))
  {
    if EndsWith(l, "\n") {
      NewlineSeam(ToCrlf(l), ToCrlf(rest));
    } else if rest != "" {
      assert ToCrlf(rest) != "" && ToCrlf(rest)[0] != '\n';
    }
  }

  /** Converting a text's "\n" to "\r\n" changes none of its headings or fences. */
  lemma {:induction false} CrlfKeepsHeads(f: Fence, s: string)
    requires !HasCrlf(s)
    ensures HeadsFrom(f, SplitLines(ToCrlf(s))) == HeadsFrom(f, SplitLines(s))
    ensures FenceAfter(f, SplitLines(ToCrlf(s))) == FenceAfter(f, SplitLines(s))
    decreases |s|
  {
    if s != "" {
      FirstLineIsLine(s);
      var l, rest := s[..FirstLine(s)], s[FirstLine(s)..];
      assert s == l + rest;
      CrlfStep(f, l, rest);
    }
  }

  lemma {:induction false} CrlfStep(f: Fence, l: string, rest: string)
    requires OneLine(l) && Seam(l, rest) && !HasCrlf(l + rest)
    ensures HeadsFrom(f, SplitLines(ToCrlf(l + rest))) == HeadsFrom(f, SplitLines(l + rest))
    ensures FenceAfter(f, SplitLines(ToCrlf(l + rest))) == FenceAfter(f, SplitLines(l + rest))
    decreases |l + rest|, 0
  {
    hide SplitLines, Head, Next, Seam, HasCrlf, ToCrlf;
    NoCrlfParts(l, rest);
    CrlfLine(f, l);
    CrlfSeam(l, rest);
    ToCrlfConcat(l, rest);
    SplitCons(l, rest);
    SplitCons(ToCrlf(l), ToCrlf(rest));
    CrlfKeepsHeads(Next(f, l), rest);
    assert ([l] + SplitLines(rest))[1..] == SplitLines(rest);
    assert ([ToCrlf(l)] + SplitLines(ToCrlf(rest)))[1..] == SplitLines(ToCrlf(rest));
  }

  /* ---------- the pieces of the new text ---------- */

  lemma EnsureEolKeeps(s: string, eol: string, end: string)
    requires EolOk(eol) && FenceEnd(s) == NoFence && (end == eol || end == eol + eol)
    ensures HeadsIn(EnsureEol(s, eol, end)) == HeadsIn(s) && FenceEnd(EnsureEol(s, eol, end)) == NoFence
    ensures EndsWith(EnsureEol(s, eol, end), "\n")
  {
    hide HeadsIn, FenceEnd;
    AddEol(s, eol);
    var r := EnsureEol(s, eol, end);
    var tail := if EndsWith(s, end) then end else eol;
    assert r[|r| - |tail|..] == tail && tail[|tail| - 1] == '\n';
    assert r[|r| - 1] == tail[|tail| - 1];
    assert r[|r| - 1..] == [r[|r| - 1]];
  }

  lemma PrefixHeads(prefix: string, eol: string)
    requires EolOk(eol) && FenceEnd(prefix) == NoFence
    ensures HeadsIn(EnsureBlankBefore(prefix, eol)) == HeadsIn(prefix)
    ensures FenceEnd(EnsureBlankBefore(prefix, eol)) == NoFence
    ensures EnsureBlankBefore(prefix, eol) == "" || EndsWith(EnsureBlankBefore(prefix, eol), "\n")
  {
    hide HeadsIn, FenceEnd, EnsureEol;
    EnsureEolKeeps(prefix, eol, eol);
    EnsureEolKeeps(EnsureEol(prefix, eol, eol), eol, eol + eol);
  }

  lemma InsertBodyPlain(body: string, eol: string)
    requires EolOk(eol) && PlainBody(body)
    ensures PlainBody(InsertBody(body, eol))
  {
    hide EnsureEol, ToCrlf, SplitLines, HeadsFrom, FenceAfter, HasCrlf;
    if body != "" {
      if !HasCrlf(body) {
        CrlfKeepsHeads(NoFence, body);
      }
      var converted := if eol == "\r\n" && !HasCrlf(body) && '\n' in body then ToCrlf(body) else body;
      EnsureEolKeeps(converted, eol, eol);
    }
  }

  /** A heading that stays on one line. */
  predicate Unbroken(s: string) {
    forall i :: 0 <= i < |s| ==> !IsBreak(s[i])
  }

  lemma {:induction false} UnbrokenLine(s: string, eol: string)
    requires Unbroken(s) && EolOk(eol)
    ensures OneLine(s + eol)
  {
    if s == "" {
      assert s + eol == eol;
    } else {
      assert (s + eol)[1..] == s[1..] + eol;
      UnbrokenLine(s[1..], eol);
    }
  }

  lemma HeadLineHeads(level: nat, heading: string, eol: string)
    requires 1 <= level <= 6 && EolOk(eol) && ValidHeading(heading) && Unbroken(heading)
    ensures HeadsIn(HeadLine(level, heading, eol)) == [Heading(level, heading)]
    ensures FenceEnd(HeadLine(level, heading, eol)) == NoFence
    ensures EndsWith(HeadLine(level, heading, eol), "\n")
  {
    hide Head, Next, Seam, ValidHeading;
    var body := Repeat('#', level) + " " + heading;
    var line := HeadLine(level, heading, eol);
    assert Unbroken(body);
    UnbrokenLine(body, eol);
    HeadLineIsHead(level, heading, eol);
    HeadKeepsNoFence(NoFence, line);
    SeamEmpty(line);
    SplitCons(line, "");
    assert line + "" == line;
    assert SplitLines(line) == [line];
    assert HeadsFrom(NoFence, []) == [] && FenceAfter(NoFence, []) == NoFence;
    assert [line][0] == line && [line][1..] == [];
    assert line[|line| - 1..] == [eol[|eol| - 1]];
  }

  lemma BlockHeads(level: nat, heading: string, body: string, suffix: string, eol: string)
    requires 1 <= level <= 6 && EolOk(eol) && ValidHeading(heading) && Unbroken(heading) && PlainBody(body)
    ensures var block := HeadLine(level, heading, eol) + InsertBody(body, eol);
      var padded := EnsureEol(EnsureBlankAfter(block, suffix, eol), eol, eol);
      HeadsIn(padded) == [Heading(level, heading)] && FenceEnd(padded) == NoFence && EndsWith(padded, "\n")
  {
    hide HeadsIn, FenceEnd, EnsureEol, HeadLine, InsertBody, ValidHeading;
    var line, rest := HeadLine(level, heading, eol), InsertBody(body, eol);
    HeadLineHeads(level, heading, eol);
    InsertBodyPlain(body, eol);
    NewlineSeam(line, rest);
    HeadsSeam(line, rest);
    EnsureEolKeeps(line + rest, eol, eol + eol);
    EnsureEolKeeps(EnsureBlankAfter(line + rest, suffix, eol), eol, eol);
  }

  lemma {:induction false} FenceBefore(d: Doc, m: nat)
    requires DocOk(d) && m < |d.blocks|
    ensures FenceAfter(NoFence, LinesBefore(d, m)) == NoFence
  {
    hide Quiet, Head, Next, BlocksOk;
    if m == 0 {
      assert LinesBefore(d, 0) == d.pre;
    } else {
      FenceBefore(d, m - 1);
      var b := d.blocks[m - 1];
      BlocksOkSlice(d.blocks, m - 1, m);
      assert d.blocks[m - 1..m] == [b];
      LinesBeforeStep(d, m - 1, m);
      assert BlockLines([b]) == [b.head] + b.body;
      OneBlockFence(d.blocks, m - 1);
      FenceAfterConcat(NoFence, LinesBefore(d, m - 1), [b.head] + b.body);
    }
  }

  lemma OneBlockFence(blocks: seq<Block>, i: nat)
    requires BlocksOk(blocks) && i < |blocks| - 1
    ensures FenceAfter(NoFence, [blocks[i].head] + blocks[i].body) == NoFence
  {
    hide Quiet, Head, Next;
    var b := blocks[i];
    assert BlockOk(b);
    HeadKeepsNoFence(NoFence, b.head);
    assert ([b.head] + b.body)[1..] == b.body;
    assert Balanced(b.body);
  }

  /** Cutting a text before a block splits its headings there. */
  lemma HeadsSplit(text: string, m: nat)
    requires m <= |OutlineOf(text).blocks| && (m == |OutlineOf(text).blocks| ==> FenceEnd(text) == NoFence)
    ensures var o := Off(OutlineOf(text), m);
      && o <= |text| && FenceEnd(text[..o]) == NoFence
      && HeadsIn(text) == HeadsIn(text[..o]) + HeadsIn(text[o..]) && |HeadsIn(text[..o])| == m
  {
    hide OutlineOf, SplitLines, Off, HeadsFrom, DocOk, LinesOf;
    var d := OutlineOf(text);
    OffCut(text, m);
    TextOfOutline(text);
    LinesSplitAt(d, m);
    var a := LinesBefore(d, m);
    if m < |d.blocks| {
      FenceBefore(d, m);
    } else {
      OffEnd(text);
      assert text[..|text|] == text;
    }
    HeadsConcat(NoFence, a, BlockLines(d.blocks[m..]));
    HeadsBefore(d, m);
  }

  lemma HeadsBefore(d: Doc, m: nat)
    requires DocOk(d) && m <= |d.blocks|
    ensures |HeadsFrom(NoFence, LinesBefore(d, m))| == m
  {
    hide HeadsFrom, BlocksOk, Quiet;
    var e := Doc(d.pre, d.blocks[..m]);
    assert d.blocks[0..m] == d.blocks[..m];
    BlocksOkSlice(d.blocks, 0, m);
    OutlineRoundTrip(e);
    HeadsAreShape(NoFence, LinesOf(e));
    ShapeLen(e.blocks);
  }

  /** The (level, heading) pairs of the section list. */
  lemma PairsAreHeads(text: string, k: nat)
    requires 1 <= k < |SectionsOf(text)|
    ensures |HeadsIn(text)| == |SectionsOf(text)| - 1
    ensures HeadsIn(text)[k - 1] == Heading(SectionsOf(text)[k].level, SectionsOf(text)[k].heading)
  {
    hide OutlineFrom, SectionsOf, SplitLines, Off, HeadAt, EndIdx, StackAt, SlashJoin, HeadsFrom, Shape;
    PreambleIs(text);
    SectionsAre(text, k - 1);
    HeadsAreShape(NoFence, SplitLines(text));
    ShapeAt(OutlineOf(text).blocks, k - 1);
  }

  /**
   * Inserting a valid heading with a plain body leaves every existing (level, heading) pair in order and
   * adds exactly one new pair at the chosen place, whichever line ending the document uses.
   */
  lemma InsertAddsOneHeading(text: string, heading: string, level: nat, position: Position, body: string)
    requires position.AtEnd? || 1 <= position.anchor < |SectionsOf(text)|
    requires 1 <= level <= 6 && ValidHeading(heading) && Unbroken(heading)
    requires PlainBody(StripLeadingHeading(body, level, heading).0)
    requires InsertIndex(text, position) == |OutlineOf(text).blocks| ==> FenceEnd(text) == NoFence
    ensures var r, m := InsertSection(text, heading, level, position, body), InsertIndex(text, position);
      r.Some? && m <= |HeadsIn(text)|
      && HeadsIn(r.value.0) == HeadsIn(text)[..m] + [Heading(level, heading)] + HeadsIn(text)[m..]
  {
    hide OutlineOf, SectionsOf, StripLeadingHeading, HeadsIn, FenceEnd, InsertBody, EnsureEol, Off, PlainBody, ValidHeading,
      Unbroken, InsertOffset, InsertIndex, HeadLine, EnsureBlankBefore, EnsureBlankAfter, DocEol, Seam;
    var o, m, eol := InsertOffset(text, position), InsertIndex(text, position), DocEol(text);
    InsertOffsetIsBlock(text, position);
    HeadsSplit(text, m);
    var a, b, bodyN := text[..o], text[o..], StripLeadingHeading(body, level, heading).0;
    PrefixHeads(a, eol);
    BlockHeads(level, heading, bodyN, b, eol);
    var prefix := EnsureBlankBefore(a, eol);
    var block := HeadLine(level, heading, eol) + InsertBody(bodyN, eol);
    var padded := EnsureEol(EnsureBlankAfter(block, b, eol), eol, eol);
    NewlineSeam(prefix, padded);
    HeadsSeam(prefix, padded);
    EndsWithRight(prefix, padded);
    NewlineSeam(prefix + padded, b);
    HeadsSeam(prefix + padded, b);
  }

  lemma EndsWithRight(a: string, b: string)
    requires EndsWith(b, "\n")
    ensures EndsWith(a + b, "\n")
  {
    assert (a + b)[|a + b| - 1..] == b[|b| - 1..];
  }
}
