/** The heartbeat datagram: the client's printer, the server's parser, and the
    clocks at both ends. Times are whole milliseconds. */
module Heartbeat {
  import opened Wrappers
  import opened Wire
  import opened Crypto

  const TIMESTAMP_LEN := 8
  const NONCE_LEN := 16
  const TAG_LEN := 32
  const MIN_HEARTBEAT := 59
  const MAX_NAME_LEN := 128
  const TIMESTAMP_SKEW := 30_000

  // -------------------------------------------------------------------------
  // Names

  predicate IsAlnum(ch: char) {
    'a' <= ch <= 'z' || 'A' <= ch <= 'Z' || '0' <= ch <= '9'
  }

  /** ASCII letters, digits and colons, not colons only. */
  predicate NameCharacters(name: string) {
    && (forall i | 0 <= i < |name| :: name[i] == ':' || IsAlnum(name[i]))
    && exists i | 0 <= i < |name| :: name[i] != ':'
  }

  predicate ValidName(name: string) {
    1 <= |name| <= MAX_NAME_LEN && NameCharacters(name)
  }

  predicate Ascii(name: string) {
    forall i | 0 <= i < |name| :: name[i] as int < 128
  }

  function EncodeText(name: string): (b: Bytes)
    requires Ascii(name)
    ensures |b| == |name| && forall i | 0 <= i < |b| :: b[i] == name[i] as int
  {
    seq(|name|, i requires 0 <= i < |name| => name[i] as int)
  }

  /** `decode("ascii")`, which raises on a byte of 128 or more. */
  function DecodeText(b: Bytes): (r: Option<string>)
    ensures r.Some? <==> forall i | 0 <= i < |b| :: b[i] < 128
    ensures r.Some? ==> Ascii(r.value) && EncodeText(r.value) == b
  {
    if forall i | 0 <= i < |b| :: b[i] < 128
    then
      var t := seq(|b|, i requires 0 <= i < |b| => b[i] as char);
      assert forall i | 0 <= i < |b| :: t[i] as int == b[i];
      Some(t)
    else None
  }

  lemma DecodeEncodeText(name: string)
    requires Ascii(name)
    ensures DecodeText(EncodeText(name)) == Some(name)
  {
    var b := EncodeText(name);
    var t := DecodeText(b).value;
    assert |t| == |name|;
    forall i | 0 <= i < |name|
      ensures t[i] == name[i]
    {
      assert EncodeText(t)[i] == b[i];
    }
    assert t == name;
  }

  // -------------------------------------------------------------------------
  // The datagram

  datatype Beat = Beat(name: string, timestamp: Bytes, nonce: Bytes, tag: Bytes) {
    predicate Valid() {
      ValidName(name) && |timestamp| == TIMESTAMP_LEN && |nonce| == NONCE_LEN && |tag| == TAG_LEN
    }

    function Millis(): nat {
      Unpack(timestamp)
    }

    /** What the tag is computed over. */
    function Message(): Bytes
      requires Ascii(name)
    {
      EncodeText(name) + timestamp + nonce
    }
  }

  lemma ValidNameIsAscii(name: string)
    requires ValidName(name)
    ensures Ascii(name) && |name| < Pow256(2)
  {
    assert Pow256(2) == 65536;
  }

  function Write(b: Beat): Bytes
    requires b.Valid()
  {
    ValidNameIsAscii(b.name);
    Pack(|b.name|, 2) + EncodeText(b.name) + b.timestamp + b.nonce + b.tag
  }

  function Parse(data: Bytes): (r: Option<Beat>)
    ensures r.Some? ==> r.value.Valid()
  {
    if |data| < MIN_HEARTBEAT then None else
    var n := Unpack(data[..2]);
    if n < 1 || n > MAX_NAME_LEN then None
    else if 2 + n + TIMESTAMP_LEN + NONCE_LEN + TAG_LEN > |data| then None
    else
      match DecodeText(data[2..2 + n])
      case None => None
      case Some(name) =>
        if !NameCharacters(name) then None
        else Some(Beat(name, data[2 + n..10 + n], data[10 + n..26 + n], data[26 + n..58 + n]))
  }

  /** The server reads back every heartbeat that is written, whatever follows
      it in the datagram. */
  lemma ParseWrite(b: Beat, trailing: Bytes)
    requires b.Valid()
    ensures Parse(Write(b) + trailing) == Some(b)
  {
    ValidNameIsAscii(b.name);
    var data, n := Write(b) + trailing, |b.name|;
    UnpackPack(n, 2);
    assert data[..2] == Pack(n, 2);
    assert data[2..2 + n] == EncodeText(b.name);
    DecodeEncodeText(b.name);
    assert data[2 + n..10 + n] == b.timestamp;
    assert data[10 + n..26 + n] == b.nonce;
    assert data[26 + n..58 + n] == b.tag;
  }

  /** And it accepts nothing else: what it takes begins with what it read. */
  lemma WriteParse(data: Bytes)
    requires Parse(data).Some?
    ensures Write(Parse(data).value) <= data
  {
    var b := Parse(data).value;
    var n := |b.name|;
    ValidNameIsAscii(b.name);
    PackUnpack(data[..2]);
    assert EncodeText(b.name) == data[2..2 + n];
    assert data[..58 + n] == data[..2] + data[2..2 + n] + data[2 + n..10 + n] + data[10 + n..26 + n]
                             + data[26 + n..58 + n];
    assert Write(b) == data[..58 + n];
  }

  /** The characters of a name as bytes: '0' to '9', 'A' to 'Z', 'a' to 'z', and
      the colon. */
  predicate NameByte(b: Byte) {
    48 <= b <= 57 || 65 <= b <= 90 || 97 <= b <= 122 || b == 58
  }

  lemma NameBytes(name: string)
    requires Ascii(name)
    ensures NameCharacters(name) <==>
            && (forall i | 0 <= i < |name| :: NameByte(EncodeText(name)[i]))
            && exists i | 0 <= i < |name| :: EncodeText(name)[i] != 58
  {
    var b := EncodeText(name);
    forall i | 0 <= i < |name|
      ensures NameByte(b[i]) <==> name[i] == ':' || IsAlnum(name[i])
      ensures b[i] != 58 <==> name[i] != ':'
    {
      assert b[i] == name[i] as int;
    }
  }

  /** What the parser takes, byte by byte: a length of 1 to 128 in two bytes, so
      many name characters that are not all colons, and at least the 56 bytes of
      time, nonce and tag. */
  predicate WellFormed(data: Bytes) {
    && |data| >= 59
    && var n := Big2(data[..2]);
       && 1 <= n <= 128 && |data| >= 2 + n + 8 + 16 + 32
       && (forall i | 2 <= i < 2 + n :: NameByte(data[i]))
       && exists i | 2 <= i < 2 + n :: data[i] != 58
  }

  lemma NameField(data: Bytes, n: nat)
    requires 2 + n <= |data|
    ensures var r := DecodeText(data[2..2 + n]);
            (r.Some? && NameCharacters(r.value)) <==>
            (forall i | 2 <= i < 2 + n :: NameByte(data[i])) && exists i | 2 <= i < 2 + n :: data[i] != 58
  {
    var field := data[2..2 + n];
    var r := DecodeText(field);
    assert forall i | 2 <= i < 2 + n :: data[i] == field[i - 2];
    assert forall i | 0 <= i < n :: field[i] == data[i + 2];
    if r.Some? {
      NameBytes(r.value);
    }
  }

  lemma TimeField(data: Bytes, n: nat)
    requires 10 + n <= |data|
    ensures Unpack(data[2 + n..10 + n]) == 0x1_0000_0000 * Big4(data[2 + n..6 + n]) + Big4(data[6 + n..10 + n])
  {
    var time := data[2 + n..10 + n];
    EightBytes(time);
    assert time[..4] == data[2 + n..6 + n] && time[4..] == data[6 + n..10 + n];
  }

  /** The server takes a datagram as a heartbeat if and only if it is well-formed. */
  lemma ParsesExactly(data: Bytes)
    ensures Parse(data).Some? <==> WellFormed(data)
  {
    if |data| >= 59 {
      var n := Big2(data[..2]);
      TwoBytes(data[..2]);
      if 1 <= n <= 128 && 58 + n <= |data| {
        NameField(data, n);
      }
    }
  }

  /** And it reads each field from its place. */
  lemma FieldsExactly(data: Bytes)
    requires Parse(data).Some?
    ensures |data| >= 2 && |data| >= 58 + Big2(data[..2])
    ensures var b, n := Parse(data).value, Big2(data[..2]);
            && |b.name| == n && (forall i | 0 <= i < n :: b.name[i] as int == data[2 + i])
            && b.timestamp == data[2 + n..10 + n] && b.nonce == data[10 + n..26 + n] && b.tag == data[26 + n..58 + n]
            && b.Millis() == 0x1_0000_0000 * Big4(data[2 + n..6 + n]) + Big4(data[6 + n..10 + n])
  {
    var n, name := Big2(data[..2]), Parse(data).value.name;
    TwoBytes(data[..2]);
    ValidNameIsAscii(name);
    assert EncodeText(name) == data[2..2 + n];
    forall i | 0 <= i < n
      ensures name[i] as int == data[2 + i]
    {
      assert EncodeText(name)[i] == data[2..2 + n][i];
    }
    TimeField(data, n);
  }

  // -------------------------------------------------------------------------
  // The client's printer

  /** `create_heartbeat_packet`, with the clock reading and the random nonce as
      arguments. */
  function CreateHeartbeat(c: Suite, name: string, key: Bytes, clockMs: int, offsetMs: int, nonce: Bytes): Bytes
    requires c.TagsHaveLength() && Ascii(name) && |name| < Pow256(2) && |nonce| == NONCE_LEN
    requires 0 <= clockMs + offsetMs < Pow256(8)
  {
    var timestamp := Pack(clockMs + offsetMs, 8);
    var tag := c.hmac(key, EncodeText(name) + timestamp + nonce);
    Pack(|name|, 2) + EncodeText(name) + timestamp + nonce + tag
  }

  predicate TagVerifies(c: Suite, key: Bytes, b: Beat)
    requires b.Valid()
  {
    ValidNameIsAscii(b.name);
    c.hmac(key, b.Message()) == b.tag
  }

  predicate WithinSkew(now: int, b: Beat) {
    -TIMESTAMP_SKEW <= now - b.Millis() <= TIMESTAMP_SKEW
  }

  /** What the client prints, the server parses to the same name, time and
      nonce, and the tag verifies under the client's key. */
  lemma ServerReadsClient(c: Suite, name: string, key: Bytes, clockMs: int, offsetMs: int, nonce: Bytes,
                          trailing: Bytes)
    returns (b: Beat)
    requires c.TagsHaveLength() && ValidName(name) && |nonce| == NONCE_LEN
    requires 0 <= clockMs + offsetMs < Pow256(8)
    ensures Parse(CreateHeartbeat(c, name, key, clockMs, offsetMs, nonce) + trailing) == Some(b)
    ensures b.Valid() && b.name == name && b.Millis() == clockMs + offsetMs && b.nonce == nonce
    ensures TagVerifies(c, key, b)
  {
    ValidNameIsAscii(name);
    var timestamp := Pack(clockMs + offsetMs, 8);
    b := Beat(name, timestamp, nonce, c.hmac(key, EncodeText(name) + timestamp + nonce));
    ParseWrite(b, trailing);
    UnpackPack(clockMs + offsetMs, 8);
  }

  /** `server_time_ms - client_time_ms`, as the client computes it on the
      authentication reply. */
  function ClockOffset(serverTimeMs: int, clientTimeMs: int): int {
    serverTimeMs - clientTimeMs
  }

  /** The client's clock may differ from the server's by any constant: a
      heartbeat passes the timestamp check exactly when the delay of the
      authentication reply and the delay of the heartbeat together stay within
      the allowed skew. All times are the server's: the reply leaves at
      `replied` and comes at `learnt`; the heartbeat leaves at `sent` and comes
      at `received`. */
  lemma OnlyDelaysCount(c: Suite, name: string, key: Bytes, nonce: Bytes, clientAhead: int,
                        replied: int, learnt: int, sent: int, received: int)
    requires c.TagsHaveLength() && ValidName(name) && |nonce| == NONCE_LEN
    requires replied <= learnt <= sent <= received
    requires 0 <= sent - (learnt - replied) && sent < Pow256(8)
    ensures var offset := ClockOffset(replied, learnt + clientAhead);
            var data := CreateHeartbeat(c, name, key, sent + clientAhead, offset, nonce);
            && Parse(data).Some?
            && (WithinSkew(received, Parse(data).value) <==> (learnt - replied) + (received - sent) <= 30_000)
  {
    var offset := ClockOffset(replied, learnt + clientAhead);
    var b := ServerReadsClient(c, name, key, sent + clientAhead, offset, nonce, []);
    var data := CreateHeartbeat(c, name, key, sent + clientAhead, offset, nonce);
    assert data + [] == data;
  }

  /** The characters that may stand in a name. */
  predicate NameLetter(ch: char) {
    '0' <= ch <= '9' || 'A' <= ch <= 'Z' || 'a' <= ch <= 'z' || ch == ':'
  }

  lemma PrintedName(c: Suite, name: string, key: Bytes, clockMs: int, offsetMs: int, nonce: Bytes)
    requires c.TagsHaveLength() && Ascii(name) && |name| < Pow256(2) && |nonce| == 16
    requires 0 <= clockMs + offsetMs < Pow256(8)
    ensures var data := CreateHeartbeat(c, name, key, clockMs, offsetMs, nonce);
            && |data| == 58 + |name| && Big2(data[..2]) == |name| && data[2..2 + |name|] == EncodeText(name)
            && forall i | 0 <= i < |name| :: data[2 + i] == name[i] as int
  {
    var data, n := CreateHeartbeat(c, name, key, clockMs, offsetMs, nonce), |name|;
    UnpackPack(n, 2);
    assert data[..2] == Pack(n, 2);
    TwoBytes(data[..2]);
    assert data[2..2 + n] == EncodeText(name);
    forall i | 0 <= i < n
      ensures data[2 + i] == name[i] as int
    {
      assert data[2..2 + n][i] == data[2 + i];
    }
  }

  lemma ReadsWhatIsPrinted(name: string, data: Bytes)
    requires Ascii(name) && |data| >= 58 + |name| && Big2(data[..2]) == |name|
    requires data[2..2 + |name|] == EncodeText(name)
    requires Parse(data).Some?
    ensures Parse(data).value.name == name
  {
    TwoBytes(data[..2]);
    DecodeEncodeText(name);
  }

  lemma LettersAreBytes(name: string, data: Bytes)
    requires |data| >= 2 + |name| && forall i | 0 <= i < |name| :: data[2 + i] == name[i] as int
    ensures (forall i | 2 <= i < 2 + |name| :: NameByte(data[i])) <==>
            forall i | 0 <= i < |name| :: NameLetter(name[i])
    ensures (exists i | 2 <= i < 2 + |name| :: data[i] != 58) <==> exists i | 0 <= i < |name| :: name[i] != ':'
  {
    assert forall i | 2 <= i < 2 + |name| :: data[i] == name[i - 2] as int;
    assert forall i | 0 <= i < |name| :: NameLetter(name[i]) <==> NameByte(data[2 + i]);
    if i :| 0 <= i < |name| && name[i] != ':' {
      assert data[2 + i] != 58;
    }
    if i :| 2 <= i < 2 + |name| && data[i] != 58 {
      assert name[i - 2] != ':';
    }
  }

  lemma ReadExactly(name: string, data: Bytes)
    requires Ascii(name) && |data| == 58 + |name| && Big2(data[..2]) == |name|
    requires data[2..2 + |name|] == EncodeText(name)
    requires forall i | 0 <= i < |name| :: data[2 + i] == name[i] as int
    ensures var r := Parse(data);
            && (r.Some? <==>
                  && 1 <= |name| <= 128 && (forall i | 0 <= i < |name| :: NameLetter(name[i]))
                  && exists i | 0 <= i < |name| :: name[i] != ':')
            && (r.Some? ==> r.value.name == name)
  {
    ParsesExactly(data);
    if Parse(data).Some? {
      ReadsWhatIsPrinted(name, data);
    }
    LettersAreBytes(name, data);
  }

  /** Of all that a client can print, the server reads back exactly the heartbeats
      of names of 1 to 128 digits, letters and colons that are not all colons. */
  lemma NamesReadExactly(c: Suite, name: string, key: Bytes, clockMs: int, offsetMs: int, nonce: Bytes)
    requires c.TagsHaveLength() && Ascii(name) && |name| < Pow256(2) && |nonce| == 16
    requires 0 <= clockMs + offsetMs < Pow256(8)
    ensures var r := Parse(CreateHeartbeat(c, name, key, clockMs, offsetMs, nonce));
            && (r.Some? <==>
                  && 1 <= |name| <= 128 && (forall i | 0 <= i < |name| :: NameLetter(name[i]))
                  && exists i | 0 <= i < |name| :: name[i] != ':')
            && (r.Some? ==> r.value.name == name)
  {
    var data := CreateHeartbeat(c, name, key, clockMs, offsetMs, nonce);
    PrintedName(c, name, key, clockMs, offsetMs, nonce);
    ReadExactly(name, data);
  }

  /** A fingerprint as both sides make it: eight groups of four hexadecimal
      digits, with colons in between. */
  predicate IsFingerprint(name: string) {
    && |name| == 39
    && forall i | 0 <= i < 39 ::
         if i % 5 == 4 then name[i] == ':' else '0' <= name[i] <= '9' || 'a' <= name[i] <= 'f'
  }

  lemma FingerprintIsName(name: string)
    requires IsFingerprint(name)
    ensures ValidName(name)
  {
    assert name[0] != ':';
  }

  /** Every device's heartbeat is read: whatever its fingerprint, the datagram has
      97 bytes and the server takes name, time, nonce and a good tag from it. */
  lemma EveryDeviceIsRead(c: Suite, name: string, key: Bytes, clockMs: int, offsetMs: int, nonce: Bytes,
                          trailing: Bytes)
    returns (b: Beat)
    requires c.TagsHaveLength() && IsFingerprint(name) && |nonce| == NONCE_LEN
    requires Ascii(name) && |name| < Pow256(2) && 0 <= clockMs + offsetMs < Pow256(8)
    ensures |CreateHeartbeat(c, name, key, clockMs, offsetMs, nonce)| == 97
    ensures Parse(CreateHeartbeat(c, name, key, clockMs, offsetMs, nonce) + trailing) == Some(b)
    ensures b.name == name && b.Millis() == clockMs + offsetMs && b.nonce == nonce && TagVerifies(c, key, b)
  {
    FingerprintIsName(name);
    b := ServerReadsClient(c, name, key, clockMs, offsetMs, nonce, trailing);
  }
}
