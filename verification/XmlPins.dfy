/** Which lines are tags, and what a block's section says. */
module XmlPins {
  import opened Text
  import opened Sections
  import opened XmlBlocks

  predicate NameChar(c: char) {
    'a' <= c <= 'z' || '0' <= c <= '9' || c == '_'
  }

  /** A lower-case letter, then lower-case letters, digits and underscores. */
  predicate TagName(tag: string) {
    tag != "" && 'a' <= tag[0] <= 'z' && forall i :: 0 <= i < |tag| ==> NameChar(tag[i])
  }

  lemma {:induction false} NameLenIs(s: string, n: nat)
    requires n <= |s| && (forall i :: 0 <= i < n ==> NameChar(s[i])) && (n < |s| ==> !NameChar(s[n]))
    ensures NameLen(s) == n
  {
    if n > 0 {
      NameLenIs(s[1..], n - 1);
    }
  }

  lemma {:induction false} NameLenNames(s: string)
    ensures forall i :: 0 <= i < NameLen(s) ==> NameChar(s[i])
  {
    if s != "" && IsNameChar(s[0]) {
      NameLenNames(s[1..]);
      forall i | 1 <= i < NameLen(s) ensures NameChar(s[i]) {
        assert s[i] == s[1..][i - 1];
      }
    }
  }

  lemma TagAfterRead(open: string, tag: string, blanks: string)
    requires TagName(tag) && Blank(blanks)
    ensures TagAfter(open + (tag + ">" + blanks), open) == Some(tag)
  {
    hide Blank;
    var t := tag + ">" + blanks;
    var s := open + t;
    assert open <= s && s[|open|..] == t;
    assert forall i :: 0 <= i < |tag| ==> t[i] == tag[i];
    NameLenIs(t, |tag|);
    assert t[|tag| + 1..] == blanks && t[..|tag|] == tag;
  }

  lemma TagAfterOnly(s: string, open: string) returns (tag: string, blanks: string)
    requires TagAfter(s, open).Some?
    ensures TagName(tag) && Blank(blanks) && s == open + (tag + ">" + blanks) && TagAfter(s, open) == Some(tag)
  {
    hide Blank;
    var t := s[|open|..];
    var n := NameLen(t);
    NameLenNames(t);
    tag, blanks := t[..n], t[n + 1..];
    assert t == tag + ">" + blanks;
    assert s == open + t;
  }

  /** An opening tag stands alone on its line, at its start: `<`, a name, `>`, and blanks at most. */
  lemma OpenTagIff(line: string, tag: string)
    ensures OpenTag(line) == Some(tag) <==>
      TagName(tag) && exists blanks :: Blank(blanks) && ChopBreak(line) == "<" + (tag + ">" + blanks)
  {
    hide TagAfter, ChopBreak, Blank, TagName;
    if OpenTag(line) == Some(tag) {
      var t, blanks := TagAfterOnly(ChopBreak(line), "<");
      assert t == tag;
    }
    if blanks :| TagName(tag) && Blank(blanks) && ChopBreak(line) == "<" + (tag + ">" + blanks) {
      TagAfterRead("<", tag, blanks);
    }
  }

  /** A closing tag likewise, with `</`. */
  lemma CloseTagIff(line: string, tag: string)
    ensures CloseTag(line) == Some(tag) <==>
      TagName(tag) && exists blanks :: Blank(blanks) && ChopBreak(line) == "</" + (tag + ">" + blanks)
  {
    hide TagAfter, ChopBreak, Blank, TagName;
    if CloseTag(line) == Some(tag) {
      var t, blanks := TagAfterOnly(ChopBreak(line), "</");
      assert t == tag;
    }
    if blanks :| TagName(tag) && Blank(blanks) && ChopBreak(line) == "</" + (tag + ">" + blanks) {
      TagAfterRead("</", tag, blanks);
    }
  }

  lemma CutLines(text: string, k: nat)
    requires k <= |SplitLines(text)|
    ensures Upto(SplitLines(text), k) <= |text| && SplitLines(text[..Upto(SplitLines(text), k)]) == SplitLines(text)[..k]
  {
    hide SplitLines, Upto;
    CutAt(text, k);
  }

  lemma {:induction false} UptoRises(lines: seq<string>, i: nat, j: nat)
    requires i <= j <= |lines|
    ensures Upto(lines, i) <= Upto(lines, j)
  {
    assert lines[..j] == lines[..i] + lines[i..j];
    JoinConcat(lines[..i], lines[i..j]);
  }

  /** The section of a block: named by its tag in brackets, at level one, on the opening line, holding the lines between. */
  lemma BlockSection(text: string, b: XmlBlock)
    requires b.open < b.close < |SplitLines(text)|
    ensures var sec := XmlSection(SplitLines(text), b);
      && sec.heading == "<" + b.tag + ">" && sec.path == "<" + b.tag + ">" && sec.level == 1 && sec.line == b.open + 1
      && sec.start <= sec.end <= |text| && sec.chars == sec.end - sec.start
      && SplitLines(text[..sec.start]) == SplitLines(text)[..b.open + 1]
      && SplitLines(text[..sec.end]) == SplitLines(text)[..b.close]
  {
    hide SplitLines, Upto;
    CutLines(text, b.open + 1);
    CutLines(text, b.close);
    UptoRises(SplitLines(text), b.open + 1, b.close);
  }
}
