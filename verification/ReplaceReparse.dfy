/** Re-parsing after a replacement. */
module ReplaceReparse {
  import opened Text
  import opened Outline
  import opened Sections
  import opened Splice
  import opened Edits
  import opened Body
  import opened Replace

  /** The first kept section after section `k`: its descendants go with the old body. */
  function NextKept(text: string, k: nat): (m: nat)
    requires k < |SectionsOf(text)|
    ensures k < m <= |SectionsOf(text)|
  {
    if k == 0 then 1 else SubtreeEnd(text, k)
  }

  function ReplaceEdit(text: string, k: nat, p: string): Edit
    requires k < |SectionsOf(text)|
  {
    PreambleIs(text);
    var sec, d := SectionsOf(text)[k], OutlineOf(text);
    var j := NextKept(text, k) - 1;
    Edit(sec.start, sec.end, sec.start + |p|, HeadAt(d, j),
         (if k == 0 then 0 else HeadAt(d, k - 1) + 1) + |SplitLines(p)|)
  }

  lemma SectionIsBlock(text: string, k: nat)
    requires k < |SectionsOf(text)| && HeadingEnded(text, k)
    ensures var sec, d, j := SectionsOf(text)[k], OutlineOf(text), NextKept(text, k) - 1;
      && k <= |d.blocks| && sec.end == Off(d, j) <= |text| && sec.start <= sec.end
      && sec.start == (if k == 0 then 0 else Off(d, k - 1) + |d.blocks[k - 1].head|)
      && (k > 0 ==> sec.start > 0 && text[sec.start - 1] == '\n' && j == EndIdx(d.blocks, k - 1))
  {
    hide OutlineOf, SectionsOf, SplitLines, Off, HeadAt, EndIdx, StackAt, SlashJoin;
    PreambleIs(text);
    SectionBounds(text, k);
    if k > 0 {
      SectionsAre(text, k - 1);
      HeadIsLine(text, k - 1);
      BodyStart(text, k - 1);
    }
  }

  /** Offsets and line numbers before block `k`, and where the next kept block now starts. */
  lemma ReplacedOffsets(d: Doc, k: nat, p: string)
    requires k <= |d.blocks|
    ensures var d' := ReplacedDoc(d, k, p);
      && k <= |d'.blocks|
      && (forall t :: 0 <= t < k ==> Off(d', t) == Off(d, t) && HeadAt(d', t) == HeadAt(d, t))
      && Off(d', k) == (if k == 0 then 0 else Off(d, k - 1) + |d.blocks[k - 1].head|) + |p|
      && HeadAt(d', k) == (if k == 0 then 0 else HeadAt(d, k - 1) + 1) + |SplitLines(p)|
      && (k > 0 ==> Off(d', 0) == Off(d, 0))
  {
    hide EndIdx, SplitLines, Join, BlockLines;
    var d' := ReplacedDoc(d, k, p);
    forall t | 0 <= t < k ensures Off(d', t) == Off(d, t) && HeadAt(d', t) == HeadAt(d, t) {
      assert d'.blocks[..t] == d.blocks[..t];
    }
    JoinSplit(p);
    if k == 0 {
      NoBlocks(d'.blocks);
      assert LinesBefore(d', 0) == SplitLines(p);
    } else {
      var b := d'.blocks[k - 1];
      assert d'.blocks[k - 1..k] == [b];
      LinesBeforeStep(d', k - 1, k);
      OneBlockLines(b);
      JoinConcat(LinesBefore(d', k - 1), [b.head] + b.body);
      JoinHead(b.head, b.body);
    }
  }

  lemma NoBlocks(blocks: seq<Block>)
    ensures BlockLines(blocks[..0]) == []
  {
  }

  lemma JoinHead(l: string, lines: seq<string>)
    ensures Join([l] + lines) == l + Join(lines)
  {
    assert ([l] + lines)[1..] == lines;
  }

  lemma ReplacedCut(d: Doc, k: nat, p: string)
    requires k <= |d.blocks|
    ensures var j := if k == 0 then 0 else EndIdx(d.blocks, k - 1);
      && CutTo(d.blocks, k, j, ReplacedDoc(d, k, p).blocks)
      && (k < j ==> forall t :: 0 <= t < k ==> EndIdx(d.blocks, t) != k)
  {
    hide SplitLines;
    var blocks' := ReplacedDoc(d, k, p).blocks;
    if k == 0 {
      assert blocks'[0..] == d.blocks[0..];
    } else {
      var i := k - 1;
      var j := EndIdx(d.blocks, i);
      SubtreeCuttable(d.blocks, i);
      assert blocks'[k..] == d.blocks[j..];
      forall t | 0 <= t < k && k < j ensures EndIdx(d.blocks, t) != k {
        assert d.blocks[k].level > d.blocks[i].level;
      }
    }
  }

  lemma ReplaceSpliced(text: string, k: nat, content: string)
    requires k < |SectionsOf(text)| && HeadingEnded(text, k) && PlainBody(NewBody(text, k, content))
    ensures Spliced(text, ReplaceSection(text, k, content).0, k, NextKept(text, k) - 1,
                    ReplaceEdit(text, k, Installed(text, k, content)))
  {
    hide OutlineOf, SectionsOf, SplitLines, Off, HeadAt, EndIdx, StripLeadingHeading, PlainBody, PadBody, HeadingEnded,
      ReplacedDoc, CutTo;
    var d, p := OutlineOf(text), Installed(text, k, content);
    var text', sec := ReplaceSection(text, k, content).0, SectionsOf(text)[k];
    SectionIsBlock(text, k);
    ReplaceOutline(text, k, content);
    ReplacedOffsets(d, k, p);
    ReplacedCut(d, k, p);
    SectionBounds(text, k);
    assert text' == text[..sec.start] + p + text[sec.end..];
    assert text'[sec.start + |p|..] == text[sec.end..];
  }

  /** An earlier section keeps its start: its newline comes no later than the replaced section's. */
  lemma EarlierStart(text: string, k: nat, t: nat, text': string, e: Edit)
    requires k < |SectionsOf(text)| && HeadingEnded(text, k) && t < k
    requires e.from == SectionsOf(text)[k].start <= |text| && e.from <= |text'| && text'[..e.from] == text[..e.from]
    ensures t < |OutlineOf(text).blocks| && Off(OutlineOf(text), t) <= e.from
    ensures AfterNewline(text', Off(OutlineOf(text), t)) == MovedStart(e, AfterNewline(text, Off(OutlineOf(text), t)))
    ensures t == k - 1 ==> AfterNewline(text, Off(OutlineOf(text), t)) == e.from
  {
    hide OutlineOf, SectionsOf, SplitLines, Off, HeadAt, EndIdx, HeadingEnded, StackAt, SlashJoin, AfterNewline;
    var d := OutlineOf(text);
    SectionIsBlock(text, k);
    SectionsAre(text, k - 1);
    OffMonotone(text, t, k - 1);
    StartAfterHead(text, k - 1);
    var a, o := text[..e.from], Off(d, t);
    assert text == a + text[e.from..] && text' == a + text'[e.from..];
    assert a[|a| - 1] == '\n';
    assert HasNl(a, o);
    AfterNewlineConcat(a, text[e.from..], o);
    AfterNewlineConcat(a, text'[e.from..], o);
  }

  lemma ReplacedPreamble(text: string, k: nat, content: string)
    requires k < |SectionsOf(text)| && HeadingEnded(text, k) && PlainBody(NewBody(text, k, content))
    ensures var e, secs' := ReplaceEdit(text, k, Installed(text, k, content)), SectionsOf(ReplaceSection(text, k, content).0);
      && |secs'| > 0 && secs'[0] == Moved(e, SectionsOf(text)[0])
      && |secs'| == |SectionsOf(text)| - NextKept(text, k) + k + 1
  {
    hide OutlineOf, SectionsOf, SplitLines, Off, HeadAt, EndIdx, StripLeadingHeading, PlainBody, PadBody, HeadingEnded,
      ReplaceSection, SlashJoin, StackAt;
    var d, p := OutlineOf(text), Installed(text, k, content);
    SectionIsBlock(text, k);
    PreambleIs(text);
    PreambleIs(ReplaceSection(text, k, content).0);
    ReplaceOutline(text, k, content);
    ReplacedOffsets(d, k, p);
    if k > 0 {
      OffMonotone(text, 0, k - 1);
      OffMonotone(text, k - 1, EndIdx(d.blocks, k - 1));
      SectionsAre(text, k - 1);
    }
  }

  predicate Replaceable(text: string, k: nat, content: string) {
    k < |SectionsOf(text)| && HeadingEnded(text, k) && PlainBody(NewBody(text, k, content))
  }

  /**
   * Re-parsing after a replacement gives the old list without the section's descendants: same headings,
   * levels and paths, positions shifted.
   */
  lemma ReplaceKeepsList(text: string, k: nat, content: string)
    requires Replaceable(text, k, content)
    ensures var secs, text' := SectionsOf(text), ReplaceSection(text, k, content).0;
      SectionsOf(text') == AllMoved(ReplaceEdit(text, k, Installed(text, k, content)),
                                    secs[..k + 1] + secs[NextKept(text, k)..])
  {
    hide OutlineOf, SectionsOf, SplitLines, StripLeadingHeading, PlainBody, PadBody, HeadingEnded, ReplaceSection,
      Moved, Spliced, EndIdx, Tracks, AfterNewline, MovedStart;
    var secs, m, text' := SectionsOf(text), NextKept(text, k), ReplaceSection(text, k, content).0;
    var e, secs' := ReplaceEdit(text, k, Installed(text, k, content)), SectionsOf(text');
    var kept := secs[..k + 1] + secs[m..];
    PreambleIs(text);
    ReplacedPreamble(text, k, content);
    ReplaceSpliced(text, k, content);
    forall t | k < t < |kept| ensures secs'[t] == Moved(e, kept[t]) {
      MovedTail(text, text', k, m - 1, e, t - k - 1);
      assert kept[t] == secs[m + (t - k - 1)];
    }
    forall t | 1 <= t <= k ensures secs'[t] == Moved(e, kept[t]) {
      HeadTracks(text, text', k, m - 1, e, t - 1);
      TracksMoved(text, t - 1, text', t - 1, e);
      KeptPrefix(text, k, content);
      EarlierStart(text, k, t - 1, text', e);
    }
    assert forall t :: 0 <= t < |kept| ==> secs'[t] == AllMoved(e, kept)[t];
  }

  lemma KeptPrefix(text: string, k: nat, content: string)
    requires k < |SectionsOf(text)|
    ensures var text', sec, p := ReplaceSection(text, k, content).0, SectionsOf(text)[k], Installed(text, k, content);
      && sec.start <= |text| && sec.end <= |text| && |text'| == sec.start + |p| + |text| - sec.end
      && text'[..sec.start] == text[..sec.start] && text'[sec.start + |p|..] == text[sec.end..]
      && text'[sec.start..sec.start + |p|] == p
  {
    hide SectionsOf, StripLeadingHeading, PadBody;
    SectionBounds(text, k);
  }

  /** `sec'` in `text'` is `sec` in `text` with body `p`; the text around it is untouched. */
  predicate ReadsBack(text: string, sec: Section, text': string, sec': Section, p: string) {
    && sec'.level == sec.level && sec'.heading == sec.heading && sec'.path == sec.path
    && sec.start == sec'.start <= sec'.end <= |text'| && sec.start <= sec.end <= |text|
    && text'[sec'.start..sec'.end] == p
    && text'[..sec'.start] == text[..sec.start] && text'[sec'.end..] == text[sec.end..]
  }

  /** Reading the section back returns exactly the padded body. */
  lemma ReplaceReadsBack(text: string, k: nat, content: string)
    requires Replaceable(text, k, content)
    ensures var text' := ReplaceSection(text, k, content).0;
      && k < |SectionsOf(text')|
      && ReadsBack(text, SectionsOf(text)[k], text', SectionsOf(text')[k], Installed(text, k, content))
  {
    hide OutlineOf, SectionsOf, SplitLines, StripLeadingHeading, PlainBody, PadBody, HeadingEnded, ReplaceSection, Installed;
    ReplaceKeepsList(text, k, content);
    KeptPrefix(text, k, content);
    SectionIsBlock(text, k);
  }

  /** Replacing again with the same content changes nothing. */
  lemma ReplaceIdempotent(text: string, k: nat, content: string)
    requires Replaceable(text, k, content)
    ensures var (text', normalized) := ReplaceSection(text, k, content);
      k < |SectionsOf(text')| && ReplaceSection(text', k, content) == (text', normalized)
  {
    hide OutlineOf, SectionsOf, SplitLines, StripLeadingHeading, PlainBody, PadBody, HeadingEnded;
    var text', sec := ReplaceSection(text, k, content).0, SectionsOf(text)[k];
    ReplaceReadsBack(text, k, content);
    SectionBounds(text, k);
    SectionBounds(text', k);
    var sec', p := SectionsOf(text')[k], Installed(text, k, content);
    assert text' == text'[..sec'.start] + text'[sec'.start..sec'.end] + text'[sec'.end..];
  }

  /**
   * A heading on the last line with no line end is glued to the new body: the read-back then holds only
   * for an empty body, which leaves the text as it was.
   */
  lemma ReplaceUnterminated(text: string, k: nat, content: string)
    requires 1 <= k < |SectionsOf(text)| && 0 < SectionsOf(text)[k].start <= SectionsOf(text)[k].end <= |text|
    requires text[SectionsOf(text)[k].start - 1] != '\n'
    ensures var text' := ReplaceSection(text, k, content).0;
      (k < |SectionsOf(text')| && ReadsBack(text, SectionsOf(text)[k], text', SectionsOf(text')[k], Installed(text, k, content)))
      <==> Installed(text, k, content) == ""
  {
    hide OutlineOf, SectionsOf, Off, StripLeadingHeading, PadBody, Installed, HeadAt, SlashJoin, StackAt, EndIdx;
    var text', sec, p := ReplaceSection(text, k, content).0, SectionsOf(text)[k], Installed(text, k, content);
    KeptPrefix(text, k, content);
    PreambleIs(text);
    SectionsAre(text, k - 1);
    AfterNewlineIs(text, Off(OutlineOf(text), k - 1));
    assert sec.start == |text|;
    if p == "" {
      assert text' == text;
    } else if k < |SectionsOf(text')| {
      PreambleIs(text');
      SectionsAre(text', k - 1);
      AfterNewlineIs(text', Off(OutlineOf(text'), k - 1));
      assert text'[sec.start - 1] == text'[..sec.start][sec.start - 1] == text[sec.start - 1];
    }
  }

  /* ---------- by path ---------- */

  function Matches(secs: seq<Section>, path: string): seq<Section> {
    if secs == [] then []
    else (if secs[0].path == path then [secs[0]] else []) + Matches(secs[1..], path)
  }

  datatype Resolution = Found(section: Section) | Ambiguous | NotExact

  /** The empty query and the exact-path strategy of `resolve_section`, which come first. */
  function ResolveExact(text: string, query: string): Resolution {
    var secs := SectionsOf(text);
    if query == "" then Found(secs[0])
    else
      var exact := Matches(secs, Strip(query));
      if |exact| == 1 then Found(exact[0]) else if |exact| > 1 then Ambiguous else NotExact
  }

  predicate OnlyAt(secs: seq<Section>, path: string, k: nat) {
    && k < |secs| && secs[k].path == path
    && forall t :: 0 <= t < |secs| && t != k ==> secs[t].path != path
  }

  lemma {:induction false} NoMatches(secs: seq<Section>, path: string)
    ensures Matches(secs, path) == [] <==> forall t :: 0 <= t < |secs| ==> secs[t].path != path
  {
    if secs != [] {
      NoMatches(secs[1..], path);
      if forall t :: 0 <= t < |secs| ==> secs[t].path != path {
      } else if secs[0].path != path {
        var t :| 0 <= t < |secs| && secs[t].path == path;
        assert secs[1..][t - 1].path == path;
      }
    }
  }

  lemma {:induction false} OneMatch(secs: seq<Section>, path: string) returns (k: nat)
    requires |Matches(secs, path)| == 1
    ensures OnlyAt(secs, path, k) && Matches(secs, path) == [secs[k]]
  {
    if secs[0].path == path {
      k := 0;
      NoMatches(secs[1..], path);
      assert forall t :: 1 <= t < |secs| ==> secs[t] == secs[1..][t - 1];
    } else {
      var r := OneMatch(secs[1..], path);
      k := r + 1;
      assert forall t :: 1 <= t < |secs| ==> secs[t] == secs[1..][t - 1];
    }
  }

  lemma {:induction false} MatchOnly(secs: seq<Section>, path: string, k: nat)
    requires OnlyAt(secs, path, k)
    ensures Matches(secs, path) == [secs[k]]
  {
    NoMatches(secs[1..], path);
    if k > 0 {
      MatchOnly(secs[1..], path, k - 1);
    }
  }

  lemma StillOnly(text: string, k: nat, content: string, path: string)
    requires Replaceable(text, k, content) && OnlyAt(SectionsOf(text), path, k)
    ensures OnlyAt(SectionsOf(ReplaceSection(text, k, content).0), path, k)
  {
    hide OutlineOf, SectionsOf, SplitLines, StripLeadingHeading, PlainBody, PadBody, HeadingEnded, ReplaceSection, Installed,
      ReplaceEdit;
    ReplaceKeepsList(text, k, content);
  }

  /** After replacing a section found by its full path, the same path still finds it and reads the padded body. */
  lemma ReplaceByPath(text: string, query: string, content: string) returns (k: nat)
    requires ResolveExact(text, query).Found?
    ensures k < |SectionsOf(text)| && ResolveExact(text, query) == Found(SectionsOf(text)[k])
    ensures Replaceable(text, k, content) ==>
      var text' := ReplaceSection(text, k, content).0;
      && k < |SectionsOf(text')| && ResolveExact(text', query) == Found(SectionsOf(text')[k])
      && ReadsBack(text, SectionsOf(text)[k], text', SectionsOf(text')[k], Installed(text, k, content))
  {
    hide OutlineOf, SectionsOf, StripLeadingHeading, PlainBody, PadBody, HeadingEnded, ReplaceSection, Installed, ReadsBack, Strip;
    PreambleIs(text);
    if query == "" {
      k := 0;
    } else {
      k := OneMatch(SectionsOf(text), Strip(query));
    }
    if Replaceable(text, k, content) {
      ReplaceReadsBack(text, k, content);
      if query != "" {
        StillOnly(text, k, content, Strip(query));
        MatchOnly(SectionsOf(ReplaceSection(text, k, content).0), Strip(query), k);
      }
    }
  }
}
