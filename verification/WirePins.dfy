/** The wire format byte by byte. */
module WirePins {
  import opened Text
  import opened WaylandWire

  function Half(low: nat, high: nat): nat {
    low + 256 * high
  }

  function Whole(b0: nat, b1: nat, b2: nat, b3: nat): nat {
    b0 + 256 * b1 + 65536 * b2 + 16777216 * b3
  }

  lemma ByteOff(low: Byte, rest: nat)
    ensures (low + 256 * rest) / 256 == rest && (low + 256 * rest) % 256 == low
  {
  }

  lemma Quotients(n: nat)
    ensures n / 0x1_0000 == n / 0x100 / 0x100 && n / 0x100_0000 == n / 0x100 / 0x100 / 0x100
  {
  }

  /** Little-endian: the least significant byte first. */
  lemma WordBytes(b0: Byte, b1: Byte, b2: Byte, b3: Byte)
    ensures Pack(Whole(b0, b1, b2, b3)) == [b0, b1, b2, b3]
    ensures Unpack([b0, b1, b2, b3]) == Whole(b0, b1, b2, b3)
  {
    var m2: nat := b2 + 256 * b3;
    var m1: nat := b1 + 256 * m2;
    var n: nat := b0 + 256 * m1;
    assert n == Whole(b0, b1, b2, b3);
    ByteOff(b0, m1);
    ByteOff(b1, m2);
    ByteOff(b2, b3);
    Quotients(n);
  }

  /** A frame: object, then opcode in the low and size in the high half-word, header included, then the body. */
  lemma FrameLayout(f: Frame)
    ensures EncodeFrame(f).Some? <==> |f.body| <= 65527
    ensures EncodeFrame(f).Some? ==> var b := EncodeFrame(f).value;
      && |b| == 8 + |f.body| && b[8..] == f.body
      && Whole(b[0], b[1], b[2], b[3]) == f.obj
      && Half(b[4], b[5]) == f.op
      && Half(b[6], b[7]) == 8 + |f.body|
  {
    hide Pack;
    if 8 + |f.body| < 65536 {
      var so := (8 + |f.body|) * 65536 + f.op;
      WordParts(f.obj);
      WordParts(so);
      assert so / 65536 == 8 + |f.body| && so % 65536 == f.op;
    }
  }

  lemma WordParts(n: Word)
    ensures var b := Pack(n);
      && Whole(b[0], b[1], b[2], b[3]) == n
      && Half(b[0], b[1]) == n % 65536 && Half(b[2], b[3]) == n / 65536
  {
    var q := n / 256;
    assert q / 256 == n / 65536 && q / 65536 == n / 16777216;
  }

  predicate AllZero(b: Bytes) {
    forall i :: 0 <= i < |b| ==> b[i] == 0
  }

  /** A string: its length with the final zero, its bytes, and one to four zeros up to a multiple of four. */
  lemma StringLayout(raw: Bytes)
    ensures EncodeString(raw).Some? <==> |raw| <= 4294967294
    ensures EncodeString(raw).Some? ==> var b := EncodeString(raw).value;
      && |b| % 4 == 0 && |raw| + 5 <= |b| <= |raw| + 8
      && Whole(b[0], b[1], b[2], b[3]) == |raw| + 1
      && b[4..4 + |raw|] == raw
      && AllZero(b[4 + |raw|..])
  {
    hide Pack, Padding, Zeros;
    if |raw| + 1 < 4294967296 {
      var head, pad := Pack(|raw| + 1), [0] + Zeros(Padding(|raw| + 1));
      WordParts(|raw| + 1);
      ZerosAre(Padding(|raw| + 1));
      ThreePieces(head, raw, pad);
      assert EncodeString(raw).value == head + raw + pad;
    }
  }

  lemma ZerosAre(n: nat)
    ensures AllZero([0] + Zeros(n))
  {
  }

  lemma ThreePieces(head: Bytes, raw: Bytes, pad: Bytes)
    requires |head| == 4
    ensures var b := head + raw + pad;
      && b[..4] == head && b[4..4 + |raw|] == raw && b[4 + |raw|..] == pad
      && b[0] == head[0] && b[1] == head[1] && b[2] == head[2] && b[3] == head[3]
  {
  }

  /** A word needs four bytes. */
  lemma WordNeedsRoom(body: Bytes, off: nat)
    ensures ReadWord(body, off).Some? <==> off + 4 <= |body|
  {
  }

  /** A string whose bytes are cut short reads as what there is of it; the next offset does not depend on that. */
  lemma ShortString(body: Bytes, off: nat, n: Word)
    requires ReadWord(body, off) == Some(n)
    ensures var end := if n == 0 then off + 4 else off + 4 + n - 1;
      var (text, next) := ReadString(body, off).value;
      && (n == 0 ==> text == [])
      && (n > 0 && end <= |body| ==> text == body[off + 4..end])
      && (n > 0 && end > |body| ==> text == body[off + 4..])
      && next % 4 == off % 4 && off + 4 + n <= next < off + 8 + n
  {
    hide ReadWord;
    WordNeedsRoom(body, off);
    assert body[off + 4..|body|] == body[off + 4..];
    AlignedIsPadded(n);
    hide Aligned, Padding;
    SameRemainder(off, Aligned(n));
  }

  lemma SameRemainder(off: nat, m: nat)
    requires m % 4 == 0
    ensures (off + 4 + m) % 4 == off % 4
  {
  }

  /** An event is cut off exactly when the header and as many bytes as it says are there. */
  lemma EventNeeds(b: Bytes)
    ensures Ready(b) <==> |b| >= 8 && Half(b[6], b[7]) <= |b|
    ensures Ready(b) ==>
      && FirstFrame(b).obj == Whole(b[0], b[1], b[2], b[3]) && FirstFrame(b).op == Half(b[4], b[5])
      && FirstFrame(b).body == if Half(b[6], b[7]) >= 8 then b[8..Half(b[6], b[7])] else []
  {
    if |b| >= 8 {
      var so := Whole(b[4], b[5], b[6], b[7]);
      assert so / 65536 == Half(b[6], b[7]) && so % 65536 == Half(b[4], b[5]);
    }
  }
}
