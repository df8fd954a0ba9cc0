/** Padding, line endings and flags of the edits, and the choice of a section by its path. */
module EditPins {
  import opened Text
  import opened MarkdownFence
  import opened Outline
  import opened Sections
  import opened Splice
  import opened Edits
  import opened Body
  import opened Replace
  import opened ReplaceReparse
  import opened Insert
  import opened Append
  import opened AppendReparse
  import opened InsertReparse
  import opened StripHeading

  predicate EndsNl(s: string) {
    |s| >= 1 && s[|s| - 1] == '\n'
  }

  predicate EndsBlank(s: string) {
    |s| >= 2 && s[|s| - 1] == '\n' && s[|s| - 2] == '\n'
  }

  lemma EndsAre(s: string)
    ensures EndsWith(s, "\n") <==> EndsNl(s)
    ensures EndsWith(s, "\n\n") <==> EndsBlank(s)
  {
    if |s| >= 1 {
      assert s[|s| - 1..] == [s[|s| - 1]];
    }
    if |s| >= 2 {
      assert s[|s| - 2..] == [s[|s| - 2], s[|s| - 1]];
    }
  }

  /**
   * A body that is set is ended, and has a blank line after it when text follows; no more newlines than that are added,
   * and none to an empty body.
   */
  lemma PaddingIs(body: string, after: string)
    ensures PadBody(body, after) ==
      if body == "" then ""
      else if after == "" then (if EndsNl(body) then body else body + "\n")
      else if EndsBlank(body) then body
      else if EndsNl(body) then body + "\n"
      else body + "\n\n"
  {
    hide EndsWith;
    EndsAre(body);
    OneMoreNewline(body);
    hide EndsNl, EndsBlank;
    assert body + "\n" + "\n" == body + "\n\n";
  }

  lemma OneMoreNewline(s: string)
    ensures EndsWith(s + "\n", "\n\n") <==> EndsNl(s)
    ensures EndsWith(s + "\n", "\n") && (EndsBlank(s) ==> EndsNl(s))
  {
    EndsAre(s + "\n");
  }

  /** A document is in CRLF exactly when "\r\n" stands somewhere in it. */
  lemma CrlfDocument(text: string)
    ensures DocEol(text) == "\r\n" <==> exists i :: 0 <= i < |text| && StandsCrlf(text, i)
    ensures DocEol(text) == "\n" || DocEol(text) == "\r\n"
  {
    if HasCrlf(text) {
      var i: nat :| i < |text| && CrlfAt(text, i);
      assert StandsCrlf(text, i);
    }
    if i :| 0 <= i < |text| && StandsCrlf(text, i) {
      assert CrlfAt(text, i);
    }
  }

  predicate StandsCrlf(text: string, i: nat) {
    i + 1 < |text| && text[i] == '\r' && text[i + 1] == '\n'
  }

  lemma {:induction false} CrlfPieces(a: string, b: string)
    ensures ToCrlf(a + b) == ToCrlf(a) + ToCrlf(b)
  {
    if a == "" {
      assert a + b == b;
    } else {
      assert (a + b)[1..] == a[1..] + b;
      CrlfPieces(a[1..], b);
    }
  }

  lemma {:induction false} CrlfKeeps(a: string)
    requires '\n' !in a
    ensures ToCrlf(a) == a
  {
    if a != "" {
      assert a == [a[0]] + a[1..];
      CrlfKeeps(a[1..]);
    }
  }

  /** Converting puts a carriage return before every newline and changes nothing else. */
  lemma NewlinesConverted(a: string, b: string)
    requires '\n' !in a
    ensures ToCrlf(a) == a && ToCrlf(a + "\n" + b) == a + "\r\n" + ToCrlf(b)
  {
    CrlfKeeps(a);
    CrlfPieces(a + "\n", b);
    CrlfPieces(a, "\n");
    assert ToCrlf("\n") == "\r\n" by { assert "\n"[1..] == ""; }
  }

  /** The inserted body: empty as it is; else converted when the document is in CRLF and the body is not, and ended. */
  lemma InsertedBodyIs(body: string, eol: string)
    requires EolOk(eol)
    ensures body == "" ==> InsertBody(body, eol) == ""
    ensures body != "" ==>
      var b := if eol == "\r\n" && '\n' in body && DocEol(body) == "\n" then ToCrlf(body) else body;
      InsertBody(body, eol) == if |eol| <= |b| && b[|b| - |eol|..] == eol then b else b + eol
  {
    hide ToCrlf, HasCrlf;
  }

  /** A blank line stands before the new heading unless it opens the document: at most two line ends are added. */
  lemma BlankBefore(prefix: string, eol: string)
    requires EolOk(eol)
    ensures EnsureBlankBefore(prefix, eol) ==
      if prefix == "" then ""
      else if EndsWith(prefix, eol + eol) then prefix
      else if EndsWith(prefix, eol) then prefix + eol
      else prefix + eol + eol
  {
    TwoEols(prefix, eol);
    if EndsWith(prefix, eol + eol) {
      EndOfEnd(prefix, eol);
    }
  }

  lemma EndOfEnd(s: string, eol: string)
    requires EndsWith(s, eol + eol)
    ensures EndsWith(s, eol)
  {
    assert s[|s| - |eol|..] == s[|s| - |eol + eol|..][|eol|..];
    assert (eol + eol)[|eol|..] == eol;
  }

  lemma TwoEols(s: string, eol: string)
    requires EolOk(eol)
    ensures EndsWith(s + eol, eol + eol) <==> EndsWith(s, eol)
  {
    var t := s + eol;
    if |eol| <= |s| {
      assert t[|t| - |eol + eol|..] == s[|s| - |eol|..] + eol;
      SameEnd(s[|s| - |eol|..], eol, eol);
    }
  }

  lemma SameEnd(a: string, b: string, c: string)
    requires |a| == |b|
    ensures a + c == b + c <==> a == b
  {
    assert (a + c)[..|a|] == a && (b + c)[..|b|] == b;
  }

  /** A blank line stands after the new section when text follows, and only its own line end when none does. */
  lemma BlankAfter(block: string, suffix: string, eol: string)
    requires EolOk(eol) && EndsWith(block, eol)
    ensures Padded(block, suffix, eol) == if suffix == "" || EndsWith(block, eol + eol) then block else block + eol
  {
    assert (block + eol)[|block|..] == eol;
  }

  /** Inserting refuses a level outside one to six, and says whether it dropped a repeated heading from the body. */
  lemma InsertFlags(text: string, heading: string, level: nat, position: Position, body: string)
    requires position.AtEnd? || 1 <= position.anchor < |SectionsOf(text)|
    ensures InsertSection(text, heading, level, position, body).Some? <==>
      level == 1 || level == 2 || level == 3 || level == 4 || level == 5 || level == 6
    ensures InsertSection(text, heading, level, position, body).Some? ==>
      (InsertSection(text, heading, level, position, body).value.1 <==> OpensWith(body, level, heading))
  {
    hide OpensWith, StripLeadingHeading, InsertOffset, SectionsOf, InsertBody, DocEol;
    HeadingDroppedIff(body, level, heading);
  }

  /** Replacing and appending say whether they dropped the section's own heading from the new text. */
  lemma EditFlags(text: string, k: nat, content: string)
    requires k < |SectionsOf(text)|
    ensures var sec := SectionsOf(text)[k];
      && (ReplaceSection(text, k, content).1 <==> OpensWith(content, sec.level, sec.heading))
      && (AppendSection(text, k, content).1 <==> OpensWith(content, sec.level, sec.heading))
  {
    hide OpensWith, StripLeadingHeading, SectionsOf, SetSectionBody;
    var sec := SectionsOf(text)[k];
    HeadingDroppedIff(content, sec.level, sec.heading);
  }

  /** Where the new section goes: behind everything, behind the anchor with its descendants, or before the anchor's heading. */
  lemma PositionsAre(text: string, position: Position)
    requires position.AtEnd? || 1 <= position.anchor < |SectionsOf(text)|
    ensures position.AtEnd? ==> InsertOffset(text, position) == |text|
    ensures position.After? ==> InsertOffset(text, position) == SectionsOf(text)[position.anchor].end
    ensures position.Before? ==>
      var o, line := InsertOffset(text, position), SectionsOf(text)[position.anchor].line;
      o <= |text| && 1 <= line <= |SplitLines(text)| + 1 && SplitLines(text[..o]) == SplitLines(text)[..line - 1]
  {
    hide SectionsOf, SplitLines, Upto;
    if !position.AtEnd? {
      SectionBounds(text, position.anchor);
      CutAt(text, SectionsOf(text)[position.anchor].line - 1);
    }
  }

  /* ---------- by path ---------- */

  predicate HasPath(secs: seq<Section>, path: string, k: nat) {
    k < |secs| && secs[k].path == path
  }

  lemma {:induction false} MatchesCount(secs: seq<Section>, path: string)
    ensures |Matches(secs, path)| == 0 <==> forall k :: 0 <= k < |secs| ==> !HasPath(secs, path, k)
  {
    if secs != [] {
      MatchesCount(secs[1..], path);
      if Matches(secs[1..], path) == [] {
        forall k | 1 <= k < |secs| ensures !HasPath(secs, path, k) {
          assert !HasPath(secs[1..], path, k - 1);
        }
        assert secs[0].path == path ==> HasPath(secs, path, 0);
      } else {
        var k :| 0 <= k < |secs[1..]| && HasPath(secs[1..], path, k);
        assert HasPath(secs, path, k + 1);
      }
    }
  }

  /** A query is the preamble when empty; else it is stripped, and found exactly when one section alone has it as its path. */
  lemma ResolvedIff(text: string, query: string, k: nat)
    requires k < |SectionsOf(text)| && query != ""
    requires HasPath(SectionsOf(text), Strip(query), k)
    ensures ResolveExact(text, query) == Found(SectionsOf(text)[k]) || ResolveExact(text, query) == Ambiguous
    ensures OnlyAt(SectionsOf(text), Strip(query), k) ==> ResolveExact(text, query) == Found(SectionsOf(text)[k])
    ensures ResolveExact(text, query).Found? ==> OnlyAt(SectionsOf(text), Strip(query), k)
  {
    hide SectionsOf, Strip;
    var secs := SectionsOf(text);
    MatchesCount(secs, Strip(query));
    if OnlyAt(secs, Strip(query), k) {
      MatchOnly(secs, Strip(query), k);
    }
    if |Matches(secs, Strip(query))| == 1 {
      var m := OneMatch(secs, Strip(query));
    }
  }

  /** The empty query names the preamble, and a path no section has is not found this way. */
  lemma ResolvedElse(text: string, query: string)
    ensures |SectionsOf(text)| > 0
    ensures query == "" ==> ResolveExact(text, query) == Found(SectionsOf(text)[0])
    ensures query != "" && (forall k :: 0 <= k < |SectionsOf(text)| ==> !HasPath(SectionsOf(text), Strip(query), k)) ==>
      ResolveExact(text, query) == NotExact
  {
    hide SectionsOf, Strip;
    PreambleIs(text);
    MatchesCount(SectionsOf(text), Strip(query));
  }
}
