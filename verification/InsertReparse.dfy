/** Re-parsing after an insert: the new section reads its own body, and nothing around it is lost. */
module InsertReparse {
  import opened Text
  import opened MarkdownFence
  import opened Outline
  import opened Sections
  import opened Splice
  import opened Edits
  import opened Body
  import opened Replace
  import opened Insert
  import opened AppendReparse

  /** Blank space the insert adds: at most two line ends. */
  predicate FewEols(s: string, eol: string) {
    s == "" || s == eol || s == eol + eol
  }

  lemma PrefixExtends(prefix: string, eol: string)
    ensures prefix <= EnsureBlankBefore(prefix, eol) && FewEols(EnsureBlankBefore(prefix, eol)[|prefix|..], eol)
  {
    assert prefix + eol + eol == prefix + (eol + eol);
    assert (prefix + eol)[|prefix|..] == eol && (prefix + (eol + eol))[|prefix|..] == eol + eol;
  }

  function Padded(block: string, suffix: string, eol: string): string {
    EnsureEol(EnsureBlankAfter(block, suffix, eol), eol, eol)
  }

  lemma PaddedExtends(block: string, suffix: string, eol: string)
    ensures block <= Padded(block, suffix, eol) && FewEols(Padded(block, suffix, eol)[|block|..], eol)
  {
    assert block + eol + eol == block + (eol + eol);
    assert (block + eol)[|block|..] == eol && (block + (eol + eol))[|block|..] == eol + eol;
  }

  /** The text of the new section up to the next heading. */
  function OwnText(text: string, heading: string, level: nat, position: Position, body: string): string
    requires position.AtEnd? || 1 <= position.anchor < |SectionsOf(text)|
  {
    var eol, line := DocEol(text), HeadLine(level, heading, DocEol(text));
    var block := line + InsertBody(StripLeadingHeading(body, level, heading).0, eol);
    PaddedExtends(block, text[InsertOffset(text, position)..], eol);
    Padded(block, text[InsertOffset(text, position)..], eol)[|line|..]
  }

  lemma HeadLineParses(level: nat, heading: string, eol: string, rest: string)
    requires 1 <= level <= 6 && EolOk(eol) && ValidHeading(heading) && Unbroken(heading)
    ensures OutlineOf(HeadLine(level, heading, eol) + rest).pre == []
    ensures OneLine(HeadLine(level, heading, eol)) && EndsWith(HeadLine(level, heading, eol), "\n")
  {
    hide Head, HeadsIn, FenceEnd, OutlineOf, ValidHeading, OneLine;
    var line := HeadLine(level, heading, eol);
    HeadLineHeads(level, heading, eol);
    HeadLineIsHead(level, heading, eol);
    assert Unbroken(Repeat('#', level) + " " + heading);
    UnbrokenLine(Repeat('#', level) + " " + heading, eol);
    HeadStarts(line, rest);
  }

  predicate Insertable(text: string, heading: string, level: nat, position: Position, body: string) {
    && (position.AtEnd? || 1 <= position.anchor < |SectionsOf(text)|)
    && 1 <= level <= 6 && ValidHeading(heading) && Unbroken(heading)
    && PlainBody(StripLeadingHeading(body, level, heading).0)
    && (InsertIndex(text, position) == |OutlineOf(text).blocks| ==> FenceEnd(text) == NoFence)
  }

  /** The text before the new heading line. */
  function Before(text: string, position: Position): string
    requires position.AtEnd? || 1 <= position.anchor < |SectionsOf(text)|
  {
    EnsureBlankBefore(text[..InsertOffset(text, position)], DocEol(text))
  }

  /** Offsets in `a + p + b`, where `p` holds one heading, at its start. */
  lemma OneHeadingBetween(a: string, p: string, b: string, m: nat)
    requires (a == "" || EndsWith(a, "\n")) && EndsWith(p, "\n") && FenceEnd(a) == NoFence && FenceEnd(p) == NoFence
    requires |HeadsIn(a)| == m && |HeadsIn(p)| == 1
    requires OutlineOf(p + b).pre == [] && OutlineOf(b).pre == []
    ensures m + 1 <= |OutlineOf(a + p + b).blocks|
    ensures Off(OutlineOf(a + p + b), m) == |a| && Off(OutlineOf(a + p + b), m + 1) == |a| + |p|
  {
    hide OutlineOf, HeadsIn, FenceEnd, Off, Seam, EndsWith;
    NewlineSeam(a, p + b);
    OffOfSeam(a, p + b);
    assert a + (p + b) == a + p + b;
    NewlineSeam(a, p);
    HeadsSeam(a, p);
    EndsWithRight(a, p);
    NewlineSeam(a + p, b);
    OffOfSeam(a + p, b);
  }

  lemma InsertHeads(text: string, position: Position)
    requires position.AtEnd? || 1 <= position.anchor < |SectionsOf(text)|
    requires InsertIndex(text, position) == |OutlineOf(text).blocks| ==> FenceEnd(text) == NoFence
    ensures var a := Before(text, position);
      (a == "" || EndsWith(a, "\n")) && FenceEnd(a) == NoFence && |HeadsIn(a)| == InsertIndex(text, position)
    ensures OutlineOf(text[InsertOffset(text, position)..]).pre == []
  {
    hide OutlineOf, SectionsOf, HeadsIn, FenceEnd, EnsureBlankBefore, DocEol, Off, InsertOffset, InsertIndex;
    InsertOffsetIsBlock(text, position);
    HeadsSplit(text, InsertIndex(text, position));
    PrefixHeads(text[..InsertOffset(text, position)], DocEol(text));
    TailStartsWithHead(text, InsertIndex(text, position));
  }

  /** The new text in its parts, and where the new heading and the one after it stand. */
  lemma InsertPlaces(text: string, heading: string, level: nat, position: Position, body: string)
    requires Insertable(text, heading, level, position, body)
    ensures var o, m, line := InsertOffset(text, position), InsertIndex(text, position), HeadLine(level, heading, DocEol(text));
      var a, own := Before(text, position), OwnText(text, heading, level, position, body);
      var text' := InsertAt(text, heading, level, o, body).0;
      && text' == a + (line + own) + text[o..]
      && m + 1 <= |OutlineOf(text').blocks| && Off(OutlineOf(text'), m) == |a|
      && Off(OutlineOf(text'), m + 1) == |a| + |line + own|
  {
    hide OutlineOf, SectionsOf, StripLeadingHeading, HeadsIn, FenceEnd, InsertBody, EnsureEol, Off, PlainBody, ValidHeading,
      Unbroken, InsertOffset, InsertIndex, HeadLine, EnsureBlankBefore, EnsureBlankAfter, DocEol, EndsWith;
    var o, eol := InsertOffset(text, position), DocEol(text);
    var b, bodyN, line := text[o..], StripLeadingHeading(body, level, heading).0, HeadLine(level, heading, eol);
    var a, own := Before(text, position), OwnText(text, heading, level, position, body);
    InsertHeads(text, position);
    BlockHeads(level, heading, bodyN, b, eol);
    PaddedExtends(line + InsertBody(bodyN, eol), b, eol);
    assert Padded(line + InsertBody(bodyN, eol), b, eol) == line + own;
    HeadLineParses(level, heading, eol, own + b);
    assert line + (own + b) == line + own + b;
    OneHeadingBetween(a, line + own, b, InsertIndex(text, position));
  }

  lemma NextEnds(blocks: seq<Block>, i: nat)
    requires i < |blocks| && (i + 1 == |blocks| || blocks[i + 1].level <= blocks[i].level)
    ensures EndIdx(blocks, i) == i + 1
  {
  }

  /** `sec` in `text'` reads `own` up to the next heading; around it stands `text`, cut at `o` and padded. */
  predicate ReadsInserted(text: string, o: nat, text': string, sec: Section, line: string, own: string, eol: string) {
    && o <= |text| && o + |line| <= sec.start && sec.start + |own| <= |text'|
    && text'[..o] == text[..o] && FewEols(text'[o..sec.start - |line|], eol) && text'[sec.start - |line|..sec.start] == line
    && text'[sec.start..sec.start + |own|] == own && text'[sec.start + |own|..] == text[o..]
  }

  lemma ReadsParts(text: string, o: nat, a: string, line: string, own: string, eol: string, sec: Section)
    requires o <= |text| && text[..o] <= a && FewEols(a[o..], eol) && sec.start == |a| + |line|
    ensures ReadsInserted(text, o, a + (line + own) + text[o..], sec, line, own, eol)
  {
    hide FewEols;
    var text' := a + (line + own) + text[o..];
    assert text'[o..sec.start - |line|] == a[o..];
    assert text'[..o] == a[..o] == text[..o];
  }

  /**
   * The new section reads as its body in the document's line ending, with at most two line ends of padding; the
   * text before and after it is kept, again with at most two line ends in between.
   */
  lemma InsertReadsBack(text: string, heading: string, level: nat, position: Position, body: string)
    requires Insertable(text, heading, level, position, body)
    ensures var o, m, eol := InsertOffset(text, position), InsertIndex(text, position), DocEol(text);
      var text', own := InsertAt(text, heading, level, o, body).0, OwnText(text, heading, level, position, body);
      var bodyN, secs := InsertBody(StripLeadingHeading(body, level, heading).0, eol), SectionsOf(text');
      && m + 1 < |secs| && secs[m + 1].heading == heading && secs[m + 1].level == level
      && ReadsInserted(text, o, text', secs[m + 1], HeadLine(level, heading, eol), own, eol)
      && bodyN <= own && FewEols(own[|bodyN|..], eol)
      && (m + 2 == |secs| || secs[m + 2].level <= level ==> secs[m + 1].end == secs[m + 1].start + |own|)
  {
    hide OutlineOf, SectionsOf, StripLeadingHeading, HeadsIn, FenceEnd, InsertBody, EnsureEol, Off, PlainBody, ValidHeading,
      Unbroken, InsertOffset, InsertIndex, HeadLine, EnsureBlankBefore, EnsureBlankAfter, DocEol, StackAt, SlashJoin, HeadAt,
      EndIdx, AfterNewline, OneLine, FewEols, InsertAt, ReadsInserted;
    var o, m, eol := InsertOffset(text, position), InsertIndex(text, position), DocEol(text);
    var text', own := InsertAt(text, heading, level, o, body).0, OwnText(text, heading, level, position, body);
    var line := HeadLine(level, heading, eol);
    var a, bodyN := Before(text, position), InsertBody(StripLeadingHeading(body, level, heading).0, eol);
    InsertPlaces(text, heading, level, position, body);
    NewPair(text, heading, level, position, body);
    PrefixExtends(text[..o], eol);
    PaddedExtends(line + bodyN, text[o..], eol);
    OwnStarts(line, bodyN, Padded(line + bodyN, text[o..], eol), own);
    PreambleIs(text');
    SectionsAre(text', m);
    HeadLineParses(level, heading, eol, "");
    assert text'[|a|..|a| + |line|] == line;
    HeadNewline(text', |a|, line);
    ReadsParts(text, o, a, line, own, eol, SectionsOf(text')[m + 1]);
    if m + 2 == |SectionsOf(text')| || SectionsOf(text')[m + 2].level <= level {
      if m + 2 < |SectionsOf(text')| { SectionsAre(text', m + 1); }
      NextEnds(OutlineOf(text').blocks, m);
    }
  }

  lemma OwnStarts(line: string, bodyN: string, padded: string, own: string)
    requires line + bodyN <= padded && own == padded[|line|..]
    ensures bodyN <= own && own[|bodyN|..] == padded[|line + bodyN|..]
  {
  }

  /** The section at the new place has the new heading and level. */
  lemma NewPair(text: string, heading: string, level: nat, position: Position, body: string)
    requires Insertable(text, heading, level, position, body)
    ensures var m, text' := InsertIndex(text, position), InsertAt(text, heading, level, InsertOffset(text, position), body).0;
      m + 1 < |SectionsOf(text')| && SectionsOf(text')[m + 1].heading == heading && SectionsOf(text')[m + 1].level == level
  {
    hide OutlineOf, SectionsOf, StripLeadingHeading, HeadsIn, FenceEnd, PlainBody, ValidHeading, Unbroken, InsertOffset, InsertIndex,
      InsertAt, Off;
    var m, text' := InsertIndex(text, position), InsertAt(text, heading, level, InsertOffset(text, position), body).0;
    InsertAddsOneHeading(text, heading, level, position, body);
    InsertPlaces(text, heading, level, position, body);
    PreambleIs(text');
    PairsAreHeads(text', m + 1);
  }
}
