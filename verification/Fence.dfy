/** Fence recognition (CommonMark section 4.5, exact-length closing only). */
module MarkdownFence {
  import opened Text

  const MIN_FENCE_LEN: nat := 3

  /** `\w`, on the ASCII range. */
  predicate IsWord(c: char) {
    'a' <= c <= 'z' || 'A' <= c <= 'Z' || '0' <= c <= '9' || c == '_'
  }

  datatype FenceOpen = FenceOpen(ch: char, len: nat, info: string)

  /** Length of the leading run of `c`. */
  function RunLen(s: string, c: char): (n: nat)
    ensures n <= |s| && (forall i :: 0 <= i < n ==> s[i] == c) && (n < |s| ==> s[n] != c)
  {
    if s != "" && s[0] == c then 1 + RunLen(s[1..], c) else 0
  }

  function ParseFenceOpen(line: string): Option<FenceOpen> {
    var s := Strip(line);
    if s == "" || (s[0] != '`' && s[0] != '~') then None
    else
      var n := RunLen(s, s[0]);
      if forall i :: n <= i < |s| ==> IsWord(s[i]) then Some(FenceOpen(s[0], n, s[n..])) else None
  }

  predicate IsClosingFenceLine(line: string, ch: char, need: nat) {
    Strip(line) == Repeat(ch, need)
  }

  /** The fence state carried from line to line. */
  datatype Fence = NoFence | InFence(ch: char, len: nat)

  function Next(f: Fence, line: string): Fence {
    var s := Strip(line);
    match f
    case NoFence =>
      (match ParseFenceOpen(s)
       case Some(o) => if o.len >= MIN_FENCE_LEN then InFence(o.ch, o.len) else NoFence
       case None => NoFence)
    case InFence(ch, len) =>
      if IsClosingFenceLine(s, ch, len) then NoFence else f
  }

  /** A line is read for headings and tags only when no fence is open before or after it. */
  predicate Visible(f: Fence, line: string) {
    f.NoFence? && Next(f, line).NoFence?
  }

  function FenceAfter(f: Fence, lines: seq<string>): Fence
    decreases |lines|
  {
    if lines == [] then f else FenceAfter(Next(f, lines[0]), lines[1..])
  }

  lemma {:induction false} FenceAfterConcat(f: Fence, a: seq<string>, b: seq<string>)
    ensures FenceAfter(f, a + b) == FenceAfter(FenceAfter(f, a), b)
    decreases |a|
  {
    if a == [] {
      assert a + b == b;
    } else {
      assert (a + b)[1..] == a[1..] + b;
      FenceAfterConcat(Next(f, a[0]), a[1..], b);
    }
  }

  lemma FenceAfterSnoc(f: Fence, lines: seq<string>, i: nat)
    requires i < |lines|
    ensures FenceAfter(f, lines[..i + 1]) == Next(FenceAfter(f, lines[..i]), lines[i])
  {
    assert lines[..i + 1] == lines[..i] + [lines[i]];
    FenceAfterConcat(f, lines[..i], [lines[i]]);
    assert FenceAfter(FenceAfter(f, lines[..i]), [lines[i]]) == Next(FenceAfter(f, lines[..i]), lines[i]);
  }

  /** A fence line whose first ink is `#` or `<` is neither an opener nor a closer of a real fence. */
  lemma InkIsNotFence(line: string)
    requires line != "" && !IsSpace(line[0]) && line[0] != '`' && line[0] != '~'
    ensures Next(NoFence, line) == NoFence
  {
    StripFirst(line);
    StripFirst(Strip(line));
  }

  lemma BlankIsNotFence(line: string)
    requires Blank(line)
    ensures Next(NoFence, line) == NoFence
  {
    StripBlank(line);
    assert Blank("");
    StripBlank("");
  }

  /** One line of any of the scans: the new fence state, and whether the line may be read. */
  method FenceLine(fence: Fence, line: string) returns (fence': Fence, shown: bool)
    ensures fence' == Next(fence, line) && shown == Visible(fence, line)
  {
    hide ParseFenceOpen, IsClosingFenceLine, Strip;
    fence', shown := fence, false;
    if fence.NoFence? {
      var parsed := ParseFenceOpen(Strip(line));
      if parsed.Some? && parsed.value.len >= MIN_FENCE_LEN {
        fence' := InFence(parsed.value.ch, parsed.value.len);
      } else {
        shown := true;
      }
    } else if IsClosingFenceLine(Strip(line), fence.ch, fence.len) {
      fence' := NoFence;
    }
  }
}
