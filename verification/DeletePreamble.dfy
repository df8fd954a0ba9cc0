/** Deleting the preamble, which every text can lose cleanly. */
module DeletePreamble {
  import opened Text
  import opened MarkdownFence
  import opened Outline
  import opened Sections
  import opened Splice
  import opened Edits

  function PreambleEdit(text: string): Edit {
    Edit(0, Off(OutlineOf(text), 0), 0, HeadAt(OutlineOf(text), 0), 0)
  }

  lemma PreambleOutline(text: string)
    ensures |SectionsOf(text)| > 0 && Off(OutlineOf(text), 0) <= |text|
    ensures DeleteSection(text, 0) == text[Off(OutlineOf(text), 0)..]
    ensures OutlineOf(DeleteSection(text, 0)) == Doc([], OutlineOf(text).blocks)
  {
    hide OutlineOf, SectionsOf, SplitLines, BlocksOk, Off;
    var d := OutlineOf(text);
    PreambleIs(text);
    OffCut(text, 0);
    TextOfOutline(text);
    assert d.blocks[0..] == d.blocks;
    OutlineOfLines(text[Off(d, 0)..], Doc([], d.blocks));
  }

  lemma PreambleSpliced(text: string)
    ensures |SectionsOf(text)| > 0 && Spliced(text, DeleteSection(text, 0), 0, 0, PreambleEdit(text))
  {
    hide OutlineOf, SectionsOf, DeleteSection, EndIdx;
    PreambleOutline(text);
  }

  /** Re-parsing after deleting the preamble gives the same headings, levels and paths, everything shifted by its length. */
  lemma DeletePreambleReparse(text: string)
    ensures |SectionsOf(text)| > 0
    ensures SectionsOf(DeleteSection(text, 0)) == AllMoved(PreambleEdit(text), SectionsOf(text))
  {
    hide OutlineOf, SectionsOf, DeleteSection, Spliced, Moved, Off, HeadAt;
    PreambleIs(text);
    var text', e := DeleteSection(text, 0), PreambleEdit(text);
    PreambleIs(text');
    PreambleOutline(text);
    PreambleSpliced(text);
    PreambleMoved(text);
    forall t | 1 <= t < |SectionsOf(text)| ensures SectionsOf(text')[t] == Moved(e, SectionsOf(text)[t]) {
      MovedTail(text, text', 0, 0, e, t - 1);
    }
    assert forall t :: 0 <= t < |SectionsOf(text)| ==> SectionsOf(text')[t] == AllMoved(e, SectionsOf(text))[t];
  }

  lemma PreambleMoved(text: string)
    ensures |SectionsOf(text)| > 0 && |SectionsOf(DeleteSection(text, 0))| > 0
    ensures SectionsOf(DeleteSection(text, 0))[0] == Moved(PreambleEdit(text), SectionsOf(text)[0])
  {
    hide OutlineOf, SectionsOf, DeleteSection;
    PreambleIs(text);
    PreambleOutline(text);
    PreambleIs(DeleteSection(text, 0));
  }
}
