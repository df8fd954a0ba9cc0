/** The Wayland wire format: words, padded strings and length-prefixed frames over a byte stream. */
module WaylandWire {
  import opened Text

  type Byte = b: nat | b < 256
  type Word = n: nat | n < 0x1_0000_0000
  type Opcode = n: nat | n < 0x1_0000

  type Bytes = seq<Byte>

  /* ---------- words ---------- */

  function Low(n: nat): Byte {
    n % 256
  }

  /** Little-endian, four bytes. */
  function Pack(n: Word): (r: Bytes)
    ensures |r| == 4
  {
    [Low(n), Low(n / 0x100), Low(n / 0x1_0000), Low(n / 0x100_0000)]
  }

  function Unpack(b: Bytes): (r: Word)
    requires |b| == 4
  {
    var b1: nat, b2: nat, b3: nat := b[1], b[2], b[3];
    b[0] + 0x100 * b1 + 0x1_0000 * b2 + 0x100_0000 * b3
  }

  function ReadWord(body: Bytes, off: nat): Option<Word> {
    if off + 4 <= |body| then Some(Unpack(body[off..off + 4])) else None
  }

  lemma PackUnpack(n: Word)
    ensures Unpack(Pack(n)) == n
  {
    var q := n / 0x100;
    assert q / 0x100 == n / 0x1_0000 && q / 0x1_0000 == n / 0x100_0000;
  }

  lemma WordReadsBack(before: Bytes, n: Word, after: Bytes)
    ensures ReadWord(before + Pack(n) + after, |before|) == Some(n)
  {
    hide Pack, Unpack;
    PackUnpack(n);
    assert (before + Pack(n) + after)[|before|..|before| + 4] == Pack(n);
  }

  /* ---------- strings ---------- */

  function Padding(n: nat): (r: nat)
    ensures r < 4 && (n + r) % 4 == 0
  {
    (4 - n % 4) % 4
  }

  function Zeros(n: nat): (r: Bytes)
    ensures |r| == n
  {
    seq(n, _ => 0)
  }

  /** The bytes of a text, a terminating zero and padding; texts whose length does not fit a word are refused. */
  function EncodeString(raw: Bytes): Option<Bytes> {
    if |raw| + 1 < 0x1_0000_0000 then Some(Pack(|raw| + 1) + raw + [0] + Zeros(Padding(|raw| + 1))) else None
  }

  function Aligned(n: nat): nat {
    (n + 3) / 4 * 4
  }

  function ReadString(body: Bytes, off: nat): Option<(Bytes, nat)> {
    match ReadWord(body, off)
    case None => None
    case Some(n) => Some((Slice(body, off + 4, off + 3 + n), off + 4 + Aligned(n)))
  }

  lemma AlignedIsPadded(n: nat)
    ensures Aligned(n) == n + Padding(n)
  {
  }

  /** Reading at the offset where a string was written gives its text and the offset just after its padding. */
  lemma StringReadsBack(before: Bytes, raw: Bytes, after: Bytes)
    requires EncodeString(raw).Some?
    ensures var b := EncodeString(raw).value;
      && |b| % 4 == 0
      && ReadString(before + b + after, |before|) == Some((raw, |before| + |b|))
  {
    hide Pack, Unpack, ReadWord, Aligned, Padding, Zeros;
    var n, b := |raw| + 1, EncodeString(raw).value;
    var rest := raw + [0] + Zeros(Padding(n));
    assert before + b + after == before + Pack(n) + (rest + after);
    WordReadsBack(before, n, rest + after);
    AlignedIsPadded(n);
    var body := before + b + after;
    assert body[|before| + 4..|before| + 4 + n - 1] == raw;
  }

  /* ---------- messages ---------- */

  datatype Field = Number(n: Word) | Words(raw: Bytes)
  datatype Kind = IsNumber | IsText

  function KindOf(f: Field): Kind {
    if f.Number? then IsNumber else IsText
  }

  function Kinds(fields: seq<Field>): (r: seq<Kind>)
    ensures |r| == |fields|
  {
    seq(|fields|, i requires 0 <= i < |fields| => KindOf(fields[i]))
  }

  function EncodeField(f: Field): Option<Bytes> {
    if f.Number? then Some(Pack(f.n)) else EncodeString(f.raw)
  }

  function Encode(fields: seq<Field>): Option<Bytes> {
    if fields == [] then Some([])
    else if EncodeField(fields[0]).Some? && Encode(fields[1..]).Some?
    then Some(EncodeField(fields[0]).value + Encode(fields[1..]).value)
    else None
  }

  function ReadField(kind: Kind, body: Bytes, off: nat): Option<(Field, nat)> {
    match kind
    case IsNumber => (match ReadWord(body, off) case None => None case Some(n) => Some((Number(n), off + 4)))
    case IsText => (match ReadString(body, off) case None => None case Some(t) => Some((Words(t.0), t.1)))
  }

  /** Reads fields one after another, each from where the previous one ended. */
  function Read(kinds: seq<Kind>, body: Bytes, off: nat): Option<(seq<Field>, nat)> {
    if kinds == [] then Some(([], off))
    else match ReadField(kinds[0], body, off)
      case None => None
      case Some(t) =>
        match Read(kinds[1..], body, t.1)
        case None => None
        case Some(u) => Some(([t.0] + u.0, u.1))
  }

  lemma FieldReadsBack(before: Bytes, f: Field, after: Bytes)
    requires EncodeField(f).Some?
    ensures ReadField(KindOf(f), before + EncodeField(f).value + after, |before|) == Some((f, |before| + |EncodeField(f).value|))
  {
    hide ReadString, EncodeString, ReadWord;
    match f
    case Number(n) => WordReadsBack(before, n, after);
    case Words(raw) => StringReadsBack(before, raw, after);
  }

  lemma ReadCons(f: Field, kinds: seq<Kind>, body: Bytes, off: nat, mid: nat, more: seq<Field>, end: nat)
    requires ReadField(KindOf(f), body, off) == Some((f, mid)) && Read(kinds, body, mid) == Some((more, end))
    ensures Read([KindOf(f)] + kinds, body, off) == Some(([f] + more, end))
  {
    hide ReadField, KindOf;
    assert ([KindOf(f)] + kinds)[1..] == kinds;
  }

  lemma Regroup(a: Bytes, b: Bytes, c: Bytes, d: Bytes)
    ensures a + b + (c + d) == a + b + c + d && a + (b + c) + d == a + b + c + d
  {
  }

  /** A message of any fields is read back by its signature, wherever it lies, ending exactly where it ends. */
  lemma {:induction false} MessageReadsBack(before: Bytes, fields: seq<Field>, after: Bytes)
    requires Encode(fields).Some?
    ensures Read(Kinds(fields), before + Encode(fields).value + after, |before|) == Some((fields, |before| + |Encode(fields).value|))
    decreases |fields|
  {
    hide ReadField, EncodeField, KindOf, Pack, Unpack, ReadWord, ReadString, EncodeString;
    if fields == [] {
      assert Kinds(fields) == [];
    } else {
      hide Read;
      var b, rest := EncodeField(fields[0]).value, Encode(fields[1..]).value;
      var body := before + b + rest + after;
      FieldReadsBack(before, fields[0], rest + after);
      MessageReadsBack(before + b, fields[1..], after);
      Regroup(before, b, rest, after);
      ReadCons(fields[0], Kinds(fields[1..]), body, |before|, |before + b|, fields[1..], |before + b| + |rest|);
      assert Kinds(fields) == [KindOf(fields[0])] + Kinds(fields[1..]);
      assert [fields[0]] + fields[1..] == fields;
    }
  }

  /* ---------- frames ---------- */

  datatype Frame = Frame(obj: Word, op: Opcode, body: Bytes)

  /** What `send` puts on the wire; a payload too long for the 16-bit size field is refused. */
  function EncodeFrame(f: Frame): Option<Bytes> {
    if 8 + |f.body| < 0x1_0000 then Some(Pack(f.obj) + Pack((8 + |f.body|) * 0x1_0000 + f.op) + f.body) else None
  }

  function HeadObj(b: Bytes): Word
    requires |b| >= 8
  {
    Unpack(b[..4])
  }

  function HeadOp(b: Bytes): Opcode
    requires |b| >= 8
  {
    Unpack(b[4..8]) % 0x1_0000
  }

  function HeadSize(b: Bytes): nat
    requires |b| >= 8
  {
    Unpack(b[4..8]) / 0x1_0000
  }

  /** `hung` when the bytes reach a header whose size field is 0, over which the splitting loop never advances. */
  datatype Parsed = Parsed(events: seq<Frame>, rest: Bytes, hung: bool)

  /** Whether another event can be taken off the front. */
  predicate Ready(b: Bytes) {
    |b| >= 8 && HeadSize(b) <= |b|
  }

  function FirstFrame(b: Bytes): Frame
    requires Ready(b)
  {
    Frame(HeadObj(b), HeadOp(b), Slice(b, 8, HeadSize(b)))
  }

  function Split(b: Bytes): (r: Parsed)
    ensures |r.rest| <= |b|
    decreases |b|
  {
    if !Ready(b) then Parsed([], b, false)
    else if HeadSize(b) == 0 then Parsed([], b, true)
    else
      var more := Split(b[HeadSize(b)..]);
      more.(events := [FirstFrame(b)] + more.events)
  }

  datatype Poll = Closed | Hung | Got(events: seq<Frame>)

  /** The receiving side of a connection. */
  class Wire {
    var buf: Bytes

    constructor ()
      ensures buf == []
    {
      buf := [];
    }

    /** Adds one received chunk and takes off every complete frame. */
    method Events(chunk: Bytes) returns (r: Poll)
      modifies this
      ensures chunk == [] ==> r == Closed && buf == old(buf)
      ensures chunk != [] ==> var p := Split(old(buf) + chunk);
        if p.hung then r == Hung else r == Got(p.events) && buf == p.rest
    {
      if chunk == [] {
        return Closed;
      }
      buf := buf + chunk;
      ghost var all := buf;
      var out: seq<Frame> := [];
      while |buf| >= 8
        invariant Split(all) == Split(buf).(events := out + Split(buf).events)
        decreases |buf|
      {
        var obj, op, size := HeadObj(buf), HeadOp(buf), HeadSize(buf);
        if |buf| < size {
          break;
        }
        if size == 0 {
          return Hung;
        }
        ghost var more := Split(buf[size..]).events;
        assert out + ([FirstFrame(buf)] + more) == out + [FirstFrame(buf)] + more;
        out := out + [Frame(obj, op, Slice(buf, 8, size))];
        buf := buf[size..];
      }
      r := Got(out);
    }
  }

  lemma HeadStays(a: Bytes, b: Bytes)
    requires |a| >= 8
    ensures HeadObj(a + b) == HeadObj(a) && HeadOp(a + b) == HeadOp(a) && HeadSize(a + b) == HeadSize(a)
  {
    assert (a + b)[..4] == a[..4] && (a + b)[4..8] == a[4..8];
  }

  lemma FirstStays(a: Bytes, b: Bytes)
    requires Ready(a)
    ensures Ready(a + b) && HeadSize(a + b) == HeadSize(a) && FirstFrame(a + b) == FirstFrame(a)
    ensures (a + b)[HeadSize(a)..] == a[HeadSize(a)..] + b
  {
    hide HeadObj, HeadOp, HeadSize;
    HeadStays(a, b);
    var n := HeadSize(a);
    assert n > 8 ==> (a + b)[8..n] == a[8..n];
  }

  /** Bytes that arrive later never change the events already cut off. */
  lemma {:induction false} SplitSplits(a: Bytes, b: Bytes)
    ensures var p, all := Split(a), Split(a + b);
      if p.hung then all.hung && all.events == p.events
      else var q := Split(p.rest + b); all == q.(events := p.events + q.events)
    decreases |a|
  {
    hide FirstFrame, HeadSize;
    if Ready(a) {
      FirstStays(a, b);
      if HeadSize(a) != 0 {
        hide Ready;
        SplitSplits(a[HeadSize(a)..], b);
        var p, q := Split(a[HeadSize(a)..]), Split(Split(a[HeadSize(a)..]).rest + b);
        assert [FirstFrame(a)] + (p.events + q.events) == [FirstFrame(a)] + p.events + q.events;
      }
    }
  }

  /* ---------- where the splitting loop never ends ---------- */

  /** The loop has room for `n` iterations, each taking one frame off the front. */
  predicate Iterates(b: Bytes, n: nat)
    decreases n
  {
    n == 0 || (Ready(b) && Iterates(b[HeadSize(b)..], n - 1))
  }

  /** A complete, non-empty frame from one position of the stream to the next. */
  predicate FrameAt(b: Bytes, from: nat, to: nat) {
    from <= |b| && Ready(b[from..]) && HeadSize(b[from..]) > 0 && to == from + HeadSize(b[from..])
  }

  /** `cuts` are the first frame boundaries of the stream. */
  predicate Boundaries(b: Bytes, cuts: seq<nat>) {
    && cuts != [] && cuts[0] == 0 && (forall i :: 0 <= i < |cuts| ==> cuts[i] <= |b|)
    && forall i :: 0 <= i < |cuts| - 1 ==> FrameAt(b, cuts[i], cuts[i + 1])
  }

  /** A complete header at `at` whose size field is 0. */
  predicate ZeroHeader(b: Bytes, at: nat) {
    at + 8 <= |b| && HeadSize(b[at..]) == 0
  }

  lemma SliceSlice(b: Bytes, n: nat, m: nat)
    requires n + m <= |b|
    ensures b[n..][m..] == b[n + m..]
  {
  }

  lemma FrameShift(b: Bytes, n: nat, from: nat, to: nat)
    requires n + from <= |b|
    ensures FrameAt(b[n..], from, to) <==> FrameAt(b, n + from, n + to)
  {
    hide Ready, HeadSize;
    SliceSlice(b, n, from);
  }

  lemma FirstFrameAt(b: Bytes, to: nat)
    requires FrameAt(b, 0, to)
    ensures Ready(b) && HeadSize(b) == to > 0 && to <= |b|
  {
    assert b[0..] == b;
  }

  function Shifted(cuts: seq<nat>, n: nat): (r: seq<nat>)
    ensures |r| == |cuts| && forall i :: 0 <= i < |cuts| ==> r[i] == cuts[i] + n
  {
    seq(|cuts|, i requires 0 <= i < |cuts| => cuts[i] + n)
  }

  lemma ShiftedBoundaries(b: Bytes, n: nat, rest: seq<nat>)
    requires FrameAt(b, 0, n) && n <= |b| && Boundaries(b[n..], rest)
    ensures Boundaries(b, [0] + Shifted(rest, n))
  {
    hide FrameAt;
    var cuts := [0] + Shifted(rest, n);
    forall i | 0 <= i < |cuts| - 1 ensures FrameAt(b, cuts[i], cuts[i + 1]) {
      if i > 0 {
        FrameShift(b, n, rest[i - 1], rest[i]);
      }
    }
  }

  lemma {:induction false} CutsGrow(b: Bytes, cuts: seq<nat>, i: nat)
    requires Boundaries(b, cuts) && 1 <= i < |cuts|
    ensures cuts[i] >= cuts[1]
  {
    hide Ready, HeadSize;
    if i > 1 {
      CutsGrow(b, cuts, i - 1);
      assert FrameAt(b, cuts[i - 1], cuts[i]);
    }
  }

  /** Past the first frame the boundaries are those of the rest of the stream. */
  lemma RestBoundaries(b: Bytes, cuts: seq<nat>) returns (rest: seq<nat>)
    requires Boundaries(b, cuts) && |cuts| > 1
    ensures cuts[1] <= |b| && |rest| == |cuts| - 1 && Boundaries(b[cuts[1]..], rest)
    ensures rest[|rest| - 1] + cuts[1] == cuts[|cuts| - 1]
  {
    hide FrameAt;
    var n := cuts[1];
    rest := seq(|cuts| - 1, i requires 0 <= i < |cuts| - 1 => if cuts[i + 1] >= n then cuts[i + 1] - n else 0);
    forall i | 0 <= i < |rest| ensures rest[i] + n == cuts[i + 1] {
      CutsGrow(b, cuts, i + 1);
    }
    forall i | 0 <= i < |rest| - 1 ensures FrameAt(b[n..], rest[i], rest[i + 1]) {
      FrameShift(b, n, rest[i], rest[i + 1]);
    }
  }

  lemma {:induction false} ZeroSplits(b: Bytes, cuts: seq<nat>)
    requires Boundaries(b, cuts) && ZeroHeader(b, cuts[|cuts| - 1])
    ensures Split(b).hung
    decreases |cuts|
  {
    hide FirstFrame, FrameAt, HeadSize;
    if |cuts| == 1 {
      assert b[0..] == b;
    } else {
      hide Boundaries;
      var rest := RestBoundaries(b, cuts);
      assert FrameAt(b, 0, cuts[1]) by { FirstCut(b, cuts); }
      FirstFrameAt(b, cuts[1]);
      SliceSlice(b, cuts[1], rest[|rest| - 1]);
      ZeroSplits(b[cuts[1]..], rest);
    }
  }

  lemma FirstCut(b: Bytes, cuts: seq<nat>)
    requires Boundaries(b, cuts) && |cuts| > 1
    ensures FrameAt(b, 0, cuts[1])
  {
  }

  lemma {:induction false} HungReaches(b: Bytes) returns (cuts: seq<nat>)
    requires Split(b).hung
    ensures Boundaries(b, cuts) && ZeroHeader(b, cuts[|cuts| - 1])
    decreases |b|
  {
    hide FirstFrame, HeadObj, HeadOp;
    assert b[0..] == b;
    if HeadSize(b) == 0 {
      cuts := [0];
    } else {
      var n := HeadSize(b);
      assert FrameAt(b, 0, n);
      hide HeadSize, Boundaries, FrameAt, Ready;
      var rest := HungReaches(b[n..]);
      CutsInside(b[n..], rest);
      cuts := [0] + Shifted(rest, n);
      ShiftedBoundaries(b, n, rest);
      SliceSlice(b, n, rest[|rest| - 1]);
    }
  }

  lemma CutsInside(b: Bytes, cuts: seq<nat>)
    requires Boundaries(b, cuts)
    ensures cuts != [] && cuts[|cuts| - 1] <= |b|
  {
  }

  /** The splitter hangs exactly when it reaches, over complete frames, a complete header whose size field is 0. */
  lemma HungIff(b: Bytes)
    ensures Split(b).hung <==> exists cuts :: Boundaries(b, cuts) && ZeroHeader(b, cuts[|cuts| - 1])
  {
    hide Split, HeadSize;
    if Split(b).hung {
      var cuts := HungReaches(b);
    }
    if cuts :| Boundaries(b, cuts) && ZeroHeader(b, cuts[|cuts| - 1]) {
      ZeroSplits(b, cuts);
    }
  }

  lemma {:induction false} ZeroIterates(b: Bytes, n: nat)
    requires Ready(b) && HeadSize(b) == 0
    ensures Iterates(b, n)
    decreases n
  {
    if n > 0 {
      assert b[HeadSize(b)..] == b;
      ZeroIterates(b, n - 1);
    }
  }

  lemma {:induction false} HungIterates(b: Bytes, n: nat)
    requires Split(b).hung
    ensures Iterates(b, n)
    decreases |b|, n
  {
    hide FirstFrame;
    if HeadSize(b) == 0 {
      ZeroIterates(b, n);
    } else if n > 0 {
      HungIterates(b[HeadSize(b)..], n - 1);
    }
  }

  lemma {:induction false} EndingIterates(b: Bytes)
    requires !Split(b).hung
    ensures !Iterates(b, |b| + 1)
    decreases |b|
  {
    hide FirstFrame;
    if Ready(b) {
      var rest := b[HeadSize(b)..];
      EndingIterates(rest);
      if Iterates(rest, |b|) {
        MoreIterations(rest, |rest| + 1, |b|);
      }
    }
  }

  lemma {:induction false} MoreIterations(b: Bytes, m: nat, n: nat)
    requires m <= n && Iterates(b, n)
    ensures Iterates(b, m)
    decreases m
  {
    hide HeadSize;
    if m > 0 {
      MoreIterations(b[HeadSize(b)..], m - 1, n - 1);
    }
  }

  /** "Hung" means what it says: the loop has room for any number of iterations; otherwise for at most one per byte. */
  lemma HungForever(b: Bytes)
    ensures Split(b).hung <==> forall n: nat :: Iterates(b, n)
  {
    hide Split, Iterates;
    if Split(b).hung {
      forall n: nat ensures Iterates(b, n) { HungIterates(b, n); }
    } else {
      EndingIterates(b);
    }
  }

  /** A header with size 0 hangs the splitter, whatever the object, the opcode and the bytes that follow. */
  lemma ZeroSizeHangs(obj: Word, op: Opcode, more: Bytes)
    ensures Split(Pack(obj) + Pack(op) + more).hung && Split(Pack(obj) + Pack(op) + more).events == []
  {
    hide Pack, Unpack;
    var b := Pack(obj) + Pack(op) + more;
    assert b[4..8] == Pack(op);
    PackUnpack(op);
  }

  /** Once a stream hangs the splitter, every continuation of it does, after the same events. */
  lemma HungForGood(b: Bytes, more: Bytes)
    requires Split(b).hung
    ensures Split(b + more).hung && Split(b + more).events == Split(b).events
  {
    hide Split;
    SplitSplits(b, more);
  }

  function Joined(chunks: seq<Bytes>): Bytes {
    if chunks == [] then [] else chunks[0] + Joined(chunks[1..])
  }

  /** Receiving chunk by chunk, as repeated calls of `Events` do. */
  function Feed(buf: Bytes, chunks: seq<Bytes>): Parsed
    decreases |chunks|
  {
    if chunks == [] then Parsed([], buf, false)
    else
      var p := Split(buf + chunks[0]);
      if p.hung then p else var q := Feed(p.rest, chunks[1..]); q.(events := p.events + q.events)
  }

  /** Nothing more can be cut off what a split leaves. */
  lemma {:induction false} RestIsSplit(b: Bytes)
    ensures !Split(b).hung ==> Split(Split(b).rest) == Parsed([], Split(b).rest, false)
    decreases |b|
  {
    hide FirstFrame, HeadObj, HeadOp;
    if Ready(b) && HeadSize(b) != 0 {
      RestIsSplit(b[HeadSize(b)..]);
    }
  }

  /**
   * However a stream is cut into chunks, the same events come out in the same order and the same bytes are left
   * over; if the loop hangs, it hangs after the same events.
   */
  lemma {:induction false} ChunkingDoesNotMatter(buf: Bytes, chunks: seq<Bytes>)
    requires Split(buf) == Parsed([], buf, false)
    ensures var f, all := Feed(buf, chunks), Split(buf + Joined(chunks));
      f.events == all.events && f.hung == all.hung && (!f.hung ==> f.rest == all.rest)
    decreases |chunks|
  {
    hide Split;
    if chunks == [] {
      assert buf + Joined(chunks) == buf;
    } else {
      var p, more := Split(buf + chunks[0]), Joined(chunks[1..]);
      assert buf + Joined(chunks) == buf + chunks[0] + more;
      SplitSplits(buf + chunks[0], more);
      if !p.hung {
        RestIsSplit(buf + chunks[0]);
        ChunkingDoesNotMatter(p.rest, chunks[1..]);
      }
    }
  }

  /* ---------- what is sent is what is received ---------- */

  function EncodeAll(frames: seq<Frame>): Option<Bytes> {
    if frames == [] then Some([])
    else if EncodeFrame(frames[0]).Some? && EncodeAll(frames[1..]).Some?
    then Some(EncodeFrame(frames[0]).value + EncodeAll(frames[1..]).value)
    else None
  }

  lemma FrameSplits(f: Frame, after: Bytes)
    requires EncodeFrame(f).Some?
    ensures var b := EncodeFrame(f).value;
      && Ready(b + after) && HeadSize(b + after) == |b| && |b| >= 8
      && FirstFrame(b + after) == f && (b + after)[|b|..] == after
  {
    hide Pack, Unpack;
    var b := EncodeFrame(f).value;
    var all, so := b + after, (8 + |f.body|) * 0x1_0000 + f.op;
    assert all[..4] == Pack(f.obj) && all[4..8] == Pack(so);
    PackUnpack(f.obj);
    PackUnpack(so);
    assert so / 0x1_0000 == 8 + |f.body| && so % 0x1_0000 == f.op;
    assert |f.body| > 0 ==> all[8..|b|] == f.body;
  }

  /** A frame cut short yields nothing and stays whole in the buffer. */
  lemma PartialWaits(f: Frame, cut: nat)
    requires EncodeFrame(f).Some? && cut < |EncodeFrame(f).value|
    ensures Split(EncodeFrame(f).value[..cut]) == Parsed([], EncodeFrame(f).value[..cut], false)
  {
    hide FirstFrame, HeadSize, EncodeFrame;
    var b := EncodeFrame(f).value;
    FrameSplits(f, []);
    assert b + [] == b;
    if cut >= 8 {
      HeadStays(b[..cut], b[cut..]);
      assert b[..cut] + b[cut..] == b;
    }
  }

  lemma {:induction false} FramesSplit(frames: seq<Frame>, after: Bytes)
    requires EncodeAll(frames).Some? && Split(after) == Parsed([], after, false)
    ensures Split(EncodeAll(frames).value + after) == Parsed(frames, after, false)
    decreases |frames|
  {
    if frames == [] {
      assert [] + after == after;
    } else {
      hide FirstFrame, HeadSize, EncodeFrame, Ready;
      var b, more := EncodeFrame(frames[0]).value, EncodeAll(frames[1..]).value;
      assert EncodeAll(frames).value + after == b + (more + after);
      FrameSplits(frames[0], more + after);
      FramesSplit(frames[1..], after);
      assert [frames[0]] + frames[1..] == frames;
    }
  }

  /** Frames sent one after another, the last possibly cut short, arrive unchanged through any chunking. */
  lemma StreamDelivers(frames: seq<Frame>, last: Frame, cut: nat, chunks: seq<Bytes>)
    requires EncodeAll(frames).Some? && EncodeFrame(last).Some? && cut < |EncodeFrame(last).value|
    requires Joined(chunks) == EncodeAll(frames).value + EncodeFrame(last).value[..cut]
    ensures Feed([], chunks) == Parsed(frames, EncodeFrame(last).value[..cut], false)
  {
    hide EncodeFrame, EncodeAll, Joined, Feed, Ready;
    PartialWaits(last, cut);
    FramesSplit(frames, EncodeFrame(last).value[..cut]);
    EmptyWaits();
    ChunkingDoesNotMatter([], chunks);
    assert [] + Joined(chunks) == Joined(chunks);
  }

  lemma EmptyWaits()
    ensures Split([]) == Parsed([], [], false)
  {
  }
}
