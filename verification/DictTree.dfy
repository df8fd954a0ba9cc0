/** Ordered dictionaries of sections: printed as markdown and read back. */
module DictTree {
  import opened Text
  import opened MarkdownFence
  import opened Outline
  import opened Sections
  import opened Edits
  import opened Body
  import opened Replace
  import opened Insert

  datatype Value = Leaf(text: string) | Sub(entries: seq<Entry>)
  datatype Entry = Entry(key: string, value: Value)

  const PREAMBLE := "_preamble"
  const CONTENT := "_content"

  predicate Reserved(key: string) {
    key == PREAMBLE || key == CONTENT
  }

  /** `d.get(key, "")` for a text-valued key. */
  function GetText(d: seq<Entry>, key: string): string {
    if d == [] then ""
    else if d[0].key == key then (match d[0].value case Leaf(t) => t case Sub(_) => "")
    else GetText(d[1..], key)
  }

  /** `d[key] = value`: in place when the key exists, else at the end. */
  function Put(d: seq<Entry>, key: string, value: Value): seq<Entry> {
    if d == [] then [Entry(key, value)]
    else if d[0].key == key then [Entry(key, value)] + d[1..]
    else [d[0]] + Put(d[1..], key, value)
  }

  /* ---------- printing ---------- */

  function RenderText(t: string): string {
    if Strip(t) == "" then ""
    else (if "\n" <= t then "" else "\n") + (if EndsWith(t, "\n") then t else t + "\n")
  }

  /** What stands between a heading line and the next heading. */
  function BodyText(t: string): string {
    RenderText(t) + "\n"
  }

  function NodeText(v: Value): string {
    match v
    case Leaf(t) => t
    case Sub(sub) => GetText(sub, CONTENT)
  }

  function RenderEntry(e: Entry, level: nat): string {
    HeadLine(level, e.key, "\n") + BodyText(NodeText(e.value))
    + (match e.value case Leaf(_) => "" case Sub(sub) => RenderEntries(sub, level + 1))
  }

  function RenderEntries(es: seq<Entry>, level: nat): string {
    if es == [] then ""
    else (if Reserved(es[0].key) then "" else RenderEntry(es[0], level)) + RenderEntries(es[1..], level)
  }

  function DictToMarkdown(d: seq<Entry>, baseLevel: nat): string {
    Ended(Ended(GetText(d, PREAMBLE)) + RenderEntries(d, baseLevel))
  }

  method Add(parts: seq<string>, part: string) returns (parts': seq<string>)
    ensures Join(parts') == Join(parts) + part
  {
    parts' := parts + [part];
    JoinConcat(parts, [part]);
    assert Join([part]) == part;
  }

  method RenderBody(parts: seq<string>, t: string) returns (parts': seq<string>)
    ensures Join(parts') == Join(parts) + BodyText(t)
  {
    hide Strip, Join;
    parts' := parts;
    if Strip(t) != "" {
      if !("\n" <= t) {
        parts' := Add(parts', "\n");
      }
      parts' := Add(parts', if EndsWith(t, "\n") then t else t + "\n");
    }
    parts' := Add(parts', "\n");
  }

  /** `_render_key`: appends the parts of one entry, then those of its children. */
  method RenderKey(parts: seq<string>, e: Entry, level: nat) returns (parts': seq<string>)
    ensures Join(parts') == Join(parts) + RenderEntry(e, level)
    decreases e, 0
  {
    hide HeadLine, BodyText, Join;
    parts' := Add(parts, HeadLine(level, e.key, "\n"));
    parts' := RenderBody(parts', NodeText(e.value));
    if e.value.Sub? {
      parts' := RenderAll(parts', e.value.entries, level + 1);
    }
  }

  method RenderAll(parts: seq<string>, es: seq<Entry>, level: nat) returns (parts': seq<string>)
    ensures Join(parts') == Join(parts) + RenderEntries(es, level)
    decreases es, 0
  {
    hide RenderEntry, Join;
    parts' := parts;
    for i := 0 to |es|
      invariant Join(parts') + RenderEntries(es[i..], level) == Join(parts) + RenderEntries(es, level)
    {
      assert es[i..][0] == es[i] && es[i..][1..] == es[i + 1..];
      ghost var before := parts';
      if !Reserved(es[i].key) {
        parts' := RenderKey(parts', es[i], level);
        assert Join(parts') == Join(before) + RenderEntry(es[i], level);
      }
      assert Join(parts') + RenderEntries(es[i + 1..], level) == Join(before) + RenderEntries(es[i..], level);
    }
    assert es[|es|..] == [];
  }

  method PrintDict(data: seq<Entry>, baseLevel: nat) returns (result: string)
    ensures result == DictToMarkdown(data, baseLevel)
  {
    hide RenderEntries;
    var parts: seq<string> := [];
    assert Join(parts) == "";
    hide Join;
    var pre := GetText(data, PREAMBLE);
    if pre != "" {
      parts := Add(parts, if EndsWith(pre, "\n") then pre else pre + "\n");
    }
    assert Join(parts) == Ended(pre);
    parts := RenderAll(parts, data, baseLevel);
    result := Join(parts);
    if result != "" && !EndsWith(result, "\n") {
      result := result + "\n";
    }
  }

  /* ---------- reading ---------- */

  function LineOffset(text: string, line: nat): nat {
    if 1 <= line <= |SplitLines(text)| + 1 then Upto(SplitLines(text), line - 1) else 0
  }

  /** The first section from `c` on, below `hi`, that is not deeper than `level`. */
  function ChildEnd(secs: seq<Section>, c: nat, hi: nat, level: nat): (r: nat)
    requires c <= hi <= |secs|
    ensures c <= r <= hi
    decreases hi - c
  {
    if c < hi && secs[c].level > level then ChildEnd(secs, c + 1, hi, level) else c
  }

  function OwnEntry(direct: string): seq<Entry> {
    if Strip(direct) != "" then [Entry(CONTENT, Leaf(direct))] else []
  }

  function BuildFrom(text: string, secs: seq<Section>, lo: nat, hi: nat, acc: seq<Entry>): seq<Entry>
    requires lo <= hi <= |secs|
    decreases hi - lo
  {
    if lo == hi then acc
    else
      var sec, c1 := secs[lo], ChildEnd(secs, lo + 1, hi, secs[lo].level);
      var value :=
        if c1 == lo + 1 then Leaf(Slice(text, sec.start, sec.end))
        else Sub(BuildFrom(text, secs, lo + 1, c1, OwnEntry(Slice(text, sec.start, LineOffset(text, secs[lo + 1].line)))));
      BuildFrom(text, secs, c1, hi, Put(acc, sec.heading, value))
  }

  function SectionsToDict(text: string): seq<Entry> {
    var secs := SectionsOf(text);
    var preamble := Slice(text, secs[0].start, secs[0].end);
    var root := if Strip(preamble) != "" then [Entry(PREAMBLE, Leaf(preamble))] else [];
    if |secs| == 1 then (if Strip(preamble) != "" then root else [Entry(PREAMBLE, Leaf(text))])
    else BuildFrom(text, secs[1..], 0, |secs| - 1, root)
  }

  /** `_build_dict_recursive`, filling `target` from the sections `lo` to `hi`. */
  method BuildDict(target: seq<Entry>, secs: seq<Section>, text: string, lo: nat, hi: nat) returns (filled: seq<Entry>)
    requires lo <= hi <= |secs|
    ensures filled == BuildFrom(text, secs, lo, hi, target)
    decreases hi - lo
  {
    hide Put, Slice, LineOffset, OwnEntry;
    filled := target;
    var i := lo;
    while i < hi
      invariant lo <= i <= hi && BuildFrom(text, secs, i, hi, filled) == BuildFrom(text, secs, lo, hi, target)
    {
      var sec, c1 := secs[i], i + 1;
      while c1 < hi && secs[c1].level > sec.level
        invariant i < c1 <= hi && ChildEnd(secs, c1, hi, sec.level) == ChildEnd(secs, i + 1, hi, sec.level)
      {
        c1 := c1 + 1;
      }
      if c1 == i + 1 {
        filled := Put(filled, sec.heading, Leaf(Slice(text, sec.start, sec.end)));
      } else {
        var child := OwnEntry(Slice(text, sec.start, LineOffset(text, secs[i + 1].line)));
        child := BuildDict(child, secs, text, i + 1, c1);
        filled := Put(filled, sec.heading, Sub(child));
      }
      i := c1;
    }
  }

  /* ---------- which dictionaries round-trip ---------- */

  predicate ValidKey(key: string) {
    ValidHeading(key) && Unbroken(key) && !Reserved(key)
  }

  predicate DistinctKeys(es: seq<Entry>) {
    forall i, j :: 0 <= i < j < |es| ==> es[i].key != es[j].key
  }

  /** Headings fit in six levels, keys are distinct headings, texts are plain, inner nodes have children. */
  predicate ValidEntries(es: seq<Entry>, level: nat) {
    && DistinctKeys(es) && (es != [] ==> 1 <= level <= 6)
    && forall i :: 0 <= i < |es| ==> ValidKey(es[i].key) && ValidValue(es[i].value, level)
  }

  predicate ValidValue(v: Value, level: nat) {
    match v
    case Leaf(t) => PlainBody(t)
    case Sub(es) => PlainBody(Own(es)) && Kids(es) != [] && ValidEntries(Kids(es), level + 1)
  }

  predicate HasOwn(es: seq<Entry>, key: string) {
    es != [] && es[0].key == key && es[0].value.Leaf?
  }

  /** The node's own text, kept under a reserved key in front of its children. */
  function Own(es: seq<Entry>): string {
    if HasOwn(es, CONTENT) then es[0].value.text else ""
  }

  function Kids(es: seq<Entry>): (r: seq<Entry>)
    ensures |r| <= |es| && r == es[|es| - |r|..]
  {
    if HasOwn(es, CONTENT) then es[1..] else es
  }

  function RootText(d: seq<Entry>): string {
    if HasOwn(d, PREAMBLE) then d[0].value.text else ""
  }

  function RootKids(d: seq<Entry>): seq<Entry> {
    if HasOwn(d, PREAMBLE) then d[1..] else d
  }

  predicate ValidRoot(d: seq<Entry>) {
    PlainBody(RootText(d)) && ValidEntries(RootKids(d), 1)
  }

  /* ---------- equality up to stripping ---------- */

  function NormValue(v: Value): Value {
    match v
    case Leaf(t) => Leaf(Strip(t))
    case Sub(es) => Sub(NormEntries(es))
  }

  /** Texts stripped; a blank text under a reserved key counts as absent. */
  function NormEntries(es: seq<Entry>): seq<Entry> {
    if es == [] then []
    else
      var e := Entry(es[0].key, NormValue(es[0].value));
      (if Reserved(e.key) && e.value == Leaf("") then [] else [e]) + NormEntries(es[1..])
  }
}
