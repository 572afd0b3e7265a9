/** Byte strings, the big-endian integers of Python's `struct`, and the layout
    of one video fragment on the wire. */
module Wire {
  import opened Wrappers

  type Byte = b: int | 0 <= b < 256
  type Bytes = seq<Byte>

  // -------------------------------------------------------------------------
  // Big-endian integers of a fixed width

  function Pow256(w: nat): (r: nat)
    ensures r > 0
  {
    if w == 0 then 1 else 256 * Pow256(w - 1)
  }

  /** `struct.pack` of an unsigned field of `w` bytes. */
  function Pack(v: nat, w: nat): (r: Bytes)
    requires v < Pow256(w)
    ensures |r| == w
  {
    if w == 0 then [] else Pack(v / 256, w - 1) + [v % 256]
  }

  /** `struct.unpack` of an unsigned field as wide as `b`. */
  function Unpack(b: Bytes): (v: nat)
    ensures v < Pow256(|b|)
  {
    if |b| == 0 then 0 else 256 * Unpack(b[..|b| - 1]) + b[|b| - 1]
  }

  lemma {:induction false} UnpackPack(v: nat, w: nat)
    requires v < Pow256(w)
    ensures Unpack(Pack(v, w)) == v
  {
    if w > 0 {
      UnpackPack(v / 256, w - 1);
      assert Pack(v, w)[..w - 1] == Pack(v / 256, w - 1);
    }
  }

  lemma {:induction false} PackUnpack(b: Bytes)
    ensures Pack(Unpack(b), |b|) == b
  {
    if |b| > 0 {
      PackUnpack(b[..|b| - 1]);
      assert b == b[..|b| - 1] + [b[|b| - 1]];
    }
  }

  // -------------------------------------------------------------------------
  // One fragment

  const MAX_NONCE_LEN := 256
  const MAX_CHUNK_BYTES := 2048
  const MAX_FRAGS_ACCEPTED := 8 * 1024 * 1024 + 1
  const HEADER_LEN := 18

  datatype Fragment = Fragment(codecTag: Byte, flags: Byte, seqNo: nat, index: nat, count: nat,
                               nonce: Bytes, chunk: Bytes)
  {
    /** The values for which every `struct.pack` of the sender succeeds. */
    predicate Encodable() {
      seqNo < Pow256(8) && index < Pow256(2) && count < Pow256(2) && |nonce| < Pow256(4)
    }

    /** The receiver's checks, apart from the lengths of the packet itself. */
    predicate Acceptable() {
      && codecTag in {1, 2}
      && 0 < count <= MAX_FRAGS_ACCEPTED
      && index < count
      && |nonce| <= MAX_NONCE_LEN
      && 0 < |chunk| <= MAX_CHUNK_BYTES
    }
  }

  /** What the parser may hand on. */
  type Parsed = p: Option<Fragment> | p.Some? ==> p.value.Encodable() && p.value.Acceptable() witness None

  function Header(f: Fragment): (r: Bytes)
    requires f.Encodable()
    ensures |r| == HEADER_LEN
  {
    [f.codecTag] + [f.flags] + Pack(f.seqNo, 8) + Pack(f.index, 2) + Pack(f.count, 2) + Pack(|f.nonce|, 4)
  }

  /** The packet the sender builds. */
  function Encode(f: Fragment): Bytes
    requires f.Encodable()
  {
    Header(f) + f.nonce + f.chunk
  }

  /** The receiver's parser, with its checks in the order it makes them. */
  function Decode(packet: Bytes): (r: Parsed) {
    if |packet| < HEADER_LEN then None else
    var codecTag, flags := packet[0], packet[1];
    var seqNo := Unpack(packet[2..10]);
    var index := Unpack(packet[10..12]);
    var count := Unpack(packet[12..14]);
    var nonceLen := Unpack(packet[14..18]);
    if codecTag !in {1, 2} then None
    else if count == 0 then None
    else if index >= count then None
    else if count > MAX_FRAGS_ACCEPTED then None
    else if nonceLen > MAX_NONCE_LEN then None
    else if HEADER_LEN + nonceLen > |packet| then None
    else
      var nonce := packet[HEADER_LEN..HEADER_LEN + nonceLen];
      var chunk := packet[HEADER_LEN + nonceLen..];
      if |chunk| == 0 then None
      else if |chunk| > MAX_CHUNK_BYTES then None
      else Some(Fragment(codecTag, flags, seqNo, index, count, nonce, chunk))
  }

  lemma HeaderFields(f: Fragment)
    requires f.Encodable()
    ensures var h := Header(f);
            && h[0] == f.codecTag && h[1] == f.flags
            && Unpack(h[2..10]) == f.seqNo && Unpack(h[10..12]) == f.index
            && Unpack(h[12..14]) == f.count && Unpack(h[14..18]) == |f.nonce|
  {
    var h := Header(f);
    assert h[2..10] == Pack(f.seqNo, 8);
    assert h[10..12] == Pack(f.index, 2);
    assert h[12..14] == Pack(f.count, 2);
    var tail := Pack(|f.nonce|, 4);
    assert |tail| == 4 && h[14..] == tail && h[14..18] == h[14..];
    UnpackPack(f.seqNo, 8);
    UnpackPack(f.index, 2);
    UnpackPack(f.count, 2);
    UnpackPack(|f.nonce|, 4);
  }

  /** Of the packets a sender can build, the receiver takes exactly the
      acceptable ones, and reads back what was written. */
  lemma DecodeEncode(f: Fragment)
    requires f.Encodable()
    ensures Decode(Encode(f)) == if f.Acceptable() then Some(f) else None
  {
    var p, h := Encode(f), Header(f);
    HeaderFields(f);
    assert p[2..10] == h[2..10] && p[10..12] == h[10..12] && p[12..14] == h[12..14] && p[14..18] == h[14..18];
    assert p[HEADER_LEN..HEADER_LEN + |f.nonce|] == f.nonce;
    assert p[HEADER_LEN + |f.nonce|..] == f.chunk;
  }

  /** Every accepted packet is the encoding of what was read from it, so two
      different packets are never read as the same fragment. */
  lemma EncodeDecode(packet: Bytes)
    requires Decode(packet).Some?
    ensures Encode(Decode(packet).value) == packet
  {
    var f := Decode(packet).value;
    PackUnpack(packet[2..10]);
    PackUnpack(packet[10..12]);
    PackUnpack(packet[12..14]);
    PackUnpack(packet[14..18]);
    assert Header(f) == packet[..HEADER_LEN];
    assert packet == packet[..HEADER_LEN] + f.nonce + f.chunk;
  }

  /** The big-endian integers of two and of four bytes. */
  function Big2(b: Bytes): nat
    requires |b| == 2
  {
    256 * (b[0] as int) + b[1] as int
  }

  function Big4(b: Bytes): nat
    requires |b| == 4
  {
    16_777_216 * (b[0] as int) + 65_536 * (b[1] as int) + 256 * (b[2] as int) + b[3] as int
  }

  lemma TwoBytes(b: Bytes)
    requires |b| == 2
    ensures Unpack(b) == Big2(b)
  {
    assert b[..1] == [b[0]] && b[..1][..0] == [];
  }

  lemma FourBytes(b: Bytes)
    requires |b| == 4
    ensures Unpack(b) == Big4(b)
  {
    TwoBytes(b[..2]);
    assert b[..3][..2] == b[..2];
  }

  /** The high half comes first. */
  lemma EightBytes(b: Bytes)
    requires |b| == 8
    ensures Unpack(b) == 0x1_0000_0000 * Big4(b[..4]) + Big4(b[4..])
  {
    FourBytes(b[..4]);
    assert b[..5][..4] == b[..4] && b[..6][..5] == b[..5] && b[..7][..6] == b[..6];
    assert Unpack(b[..5]) == 256 * Unpack(b[..4]) + b[4] as int;
    assert Unpack(b[..6]) == 256 * Unpack(b[..5]) + b[5] as int;
    assert Unpack(b[..7]) == 256 * Unpack(b[..6]) + b[6] as int;
    assert Unpack(b) == 256 * Unpack(b[..7]) + b[7] as int;
  }

  /** What the receiver takes, byte by byte: one of two codecs, an index below a
      nonzero count, a nonce of at most 256 bytes that is there, and a chunk of 1
      to 2048 bytes after it. A count of two bytes is never too large. */
  predicate Taken(packet: Bytes) {
    && |packet| >= 18
    && (packet[0] == 1 || packet[0] == 2)
    && Big2(packet[10..12]) < Big2(packet[12..14])
    && var n := Big4(packet[14..18]); n <= 256 && 18 + n < |packet| <= 18 + n + 2048
  }

  lemma DecodesExactly(packet: Bytes)
    ensures Decode(packet).Some? <==> Taken(packet)
    ensures Taken(packet) ==>
              var f, n := Decode(packet).value, Big4(packet[14..18]);
              && f.codecTag == packet[0] && f.flags == packet[1]
              && f.seqNo == 0x1_0000_0000 * Big4(packet[2..6]) + Big4(packet[6..10])
              && f.index == Big2(packet[10..12]) && f.count == Big2(packet[12..14])
              && f.nonce == packet[18..18 + n] && f.chunk == packet[18 + n..]
  {
    if |packet| >= 18 {
      TwoBytes(packet[10..12]);
      TwoBytes(packet[12..14]);
      FourBytes(packet[14..18]);
      EightBytes(packet[2..10]);
      assert packet[2..10][..4] == packet[2..6] && packet[2..10][4..] == packet[6..10];
    }
  }
}
