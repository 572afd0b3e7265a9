/** How the server cuts one encrypted frame into UDP packets. */
module Fragmenter {
  import opened Wrappers
  import opened Wire
  import opened Sums
  import opened Aead
  import opened Reassembler
  import opened Delivery

  const GCM_NONCE_LEN := 12
  const FRAME_HEADER_SIZE := 1 + 1 + 8 + 2 + 2 + 4 + 12
  const PACKET_MAX_PAYLOAD := 1500 - 20 - 8 - FRAME_HEADER_SIZE - 16
  const MAX_FRAME_BYTES := 8 * 1024 * 1024
  const MAX_FRAGS_PER_FRAME := MAX_FRAME_BYTES / PACKET_MAX_PAYLOAD + 1
  const CODEC_TAG_JPEG: Byte := 1
  const CODEC_TAG_H264: Byte := 2

  /** `max(1, ceil(n / PACKET_MAX_PAYLOAD))`, with the source's double negation. */
  function FragCount(n: nat): nat {
    var c := -(-(n as int) / PACKET_MAX_PAYLOAD);
    if c < 1 then 1 else c
  }

  /** One encrypted frame as it is about to be sent. */
  datatype Transmission = Transmission(seqNo: nat, codecTag: Byte, flags: Byte, nonce: Bytes, ciphertext: Bytes) {
    /** What `aes_encrypt` and the size check leave. */
    predicate Sendable() {
      && seqNo < Pow256(8)
      && codecTag in {CODEC_TAG_JPEG, CODEC_TAG_H264}
      && |nonce| == GCM_NONCE_LEN
      && TAG_LEN <= |ciphertext| <= MAX_FRAME_BYTES + TAG_LEN
    }

    function Count(): nat {
      FragCount(|ciphertext|)
    }

    /** A slice bound as Python clamps it. */
    function Offset(k: nat): (o: nat)
      ensures o <= |ciphertext|
    {
      if k * PACKET_MAX_PAYLOAD <= |ciphertext| then k * PACKET_MAX_PAYLOAD else |ciphertext|
    }

    function Chunk(i: nat): Bytes {
      ciphertext[Offset(i)..Offset(i + 1)]
    }

    function Piece(i: nat): Fragment {
      Fragment(codecTag, flags, seqNo, i, Count(), nonce, Chunk(i))
    }

    function Packet(i: nat): Bytes
      requires Sendable() && i < Count()
    {
      PieceFacts(i);
      Encode(Piece(i))
    }

    /** The first `k` packets. */
    function Packets(k: nat): (r: seq<Bytes>)
      requires Sendable() && k <= Count()
      ensures |r| == k && forall i | 0 <= i < k :: r[i] == Packet(i)
    {
      if k == 0 then [] else Packets(k - 1) + [Packet(k - 1)]
    }

    /** The sizes: never more fragments than the server's own limit, so its
        "count exceeded" branch is dead; every chunk is nonempty and fits the
        MTU budget, and only the last one may be short. */
    lemma CountFacts()
      requires Sendable()
      ensures 1 <= Count() <= MAX_FRAGS_PER_FRAME <= 65535
      ensures (Count() - 1) * 1426 < |ciphertext| <= Count() * 1426
    {
    }

    lemma PieceFacts(i: nat)
      requires Sendable() && i < Count()
      ensures Piece(i).Encodable() && Piece(i).Acceptable()
      ensures |Chunk(i)| == if i < Count() - 1 then 1426 else |ciphertext| - 1426 * i
      ensures 0 < |Chunk(i)| <= 1426
    {
      CountFacts();
      assert Pow256(2) == 65536 && Pow256(4) == 4294967296;
    }

    /** The receiver reads every packet back as the fragment it was made from. */
    lemma PacketDecodes(i: nat)
      requires Sendable() && i < Count()
      ensures Decode(Packet(i)) == Some(Piece(i))
      ensures |Packet(i)| == 30 + |Chunk(i)| <= 1456
    {
      PieceFacts(i);
      DecodeEncode(Piece(i));
    }

    /** All the chunks, by index. */
    function Chunks(): map<nat, Bytes> {
      map i: nat | i in Below(Count()) :: Chunk(i)
    }

    lemma ChunkExtends(k: nat)
      ensures ciphertext[..Offset(k + 1)] == ciphertext[..Offset(k)] + Chunk(k)
    {
    }

    lemma {:induction false} JoinPrefix(k: nat)
      requires k <= Count()
      ensures forall i | 0 <= i < k :: i in Chunks()
      ensures Join(Chunks(), k) == ciphertext[..Offset(k)]
    {
      if k > 0 {
        JoinPrefix(k - 1);
        ChunkExtends(k - 1);
      }
    }

    /** Joined in order of index they are the ciphertext. */
    lemma ChunksJoin()
      ensures forall i | 0 <= i < Count() :: i in Chunks()
      ensures Join(Chunks(), Count()) == ciphertext
    {
      JoinPrefix(Count());
      assert Offset(Count()) == |ciphertext|;
    }

    /** Bytes on the wire after `k` packets. */
    function SentBytes(k: nat): nat
      requires Sendable() && k <= Count()
    {
      if k == 0 then 0 else SentBytes(k - 1) + |Packet(k - 1)|
    }

    /** The whole frame costs its ciphertext and one header a fragment. */
    lemma SentBytesTotal()
      requires Sendable()
      ensures SentBytes(Count()) == |ciphertext| + 30 * Count()
    {
      SentBytesPrefix(Count());
      assert Offset(Count()) == |ciphertext|;
    }

    lemma {:induction false} SentBytesPrefix(k: nat)
      requires Sendable() && k <= Count()
      ensures SentBytes(k) == Offset(k) + FRAME_HEADER_SIZE * k
    {
      if k > 0 {
        SentBytesPrefix(k - 1);
        PacketDecodes(k - 1);
      }
    }

    /** The transmission as the frame in pieces that the receiver should see. */
    function AsSent(key: Bytes, frame: Bytes): Sent {
      Sent(key, seqNo, frame, Buffer(Chunks(), Count(), codecTag, flags, nonce, 0, 0))
    }

    lemma SentIsValid(key: Bytes, frame: Bytes)
      requires Sendable()
      ensures AsSent(key, frame).Valid()
      ensures AsSent(key, frame).Seal() == Sealed(key, nonce, Pack(seqNo, 8), ciphertext)
    {
      CountFacts();
      ChunksJoin();
    }

    lemma PacketIsPiece(key: Bytes, frame: Bytes, i: nat)
      requires Sendable() && i < Count()
      ensures Decode(Packet(i)).Some? && AsSent(key, frame).Carries(Decode(Packet(i)).value)
      ensures Decode(Packet(i)).value.index == i
    {
      PacketDecodes(i);
    }
  }

  /** A run that is fed nothing but packets of one transmission, number
      `schedule[k]` at call `k`, by a network that may reorder and repeat. */
  predicate Feeds(t: Transmission, key: Bytes, frame: Bytes, run: Run, schedule: seq<nat>)
    requires t.Sendable()
  {
    && |schedule| == |run.arrivals|
    && forall k | 0 <= k < |schedule| ::
         && schedule[k] < t.Count()
         && run.arrivals[k].input == Decode(t.Packet(schedule[k]))
         && Sealed(key, t.nonce, Pack(t.seqNo, 8), t.ciphertext) in run.arrivals[k].log
         && run.arrivals[k].log[Sealed(key, t.nonce, Pack(t.seqNo, 8), t.ciphertext)] == frame
  }

  predicate AllThere(t: Transmission, schedule: seq<nat>) {
    forall i | 0 <= i < t.Count() :: i in schedule
  }

  lemma FeedsPieces(t: Transmission, key: Bytes, frame: Bytes, run: Run, schedule: seq<nat>, j: nat)
    requires t.Sendable() && Feeds(t, key, frame, run, schedule) && j < |schedule|
    ensures var s := t.AsSent(key, frame);
            s.Valid() && s.Genuine(run.arrivals[j]) && s.Index(run.arrivals[j]) == {schedule[j]}
  {
    t.SentIsValid(key, frame);
    t.PacketIsPiece(key, frame, schedule[j]);
  }

  lemma FeedsOnlyPieces(t: Transmission, key: Bytes, frame: Bytes, run: Run, schedule: seq<nat>)
    requires t.Sendable() && run.Valid() && run.key == key && Feeds(t, key, frame, run, schedule)
    requires run.states[0].last < t.seqNo && t.seqNo !in run.states[0].buffers
    ensures var s := t.AsSent(key, frame);
            && Meets(s, run) && OnlyOwnPackets(s, run)
            && forall j | 0 <= j < |schedule| :: s.Index(run.arrivals[j]) == {schedule[j]}
  {
    var s := t.AsSent(key, frame);
    t.SentIsValid(key, frame);
    forall j | 0 <= j < |schedule|
      ensures s.Genuine(run.arrivals[j]) && s.Index(run.arrivals[j]) == {schedule[j]}
    {
      FeedsPieces(t, key, frame, run, schedule, j);
    }
  }

  lemma CompleteMeansAll(t: Transmission, s: Sent, schedule: seq<nat>)
    requires s.whole.fragments.Keys == Below(t.Count()) && forall i | i in schedule :: i < t.Count()
    ensures s.Complete(set i | i in schedule) <==> AllThere(t, schedule)
  {
    var there := set i | i in schedule;
    if AllThere(t, schedule) {
      assert forall i: nat | i in Below(t.Count()) :: i in there;
    }
    if s.Complete(there) {
      forall i | 0 <= i < t.Count()
        ensures i in schedule
      {
        assert i in there;
      }
    }
  }

  lemma CompleteAt(t: Transmission, s: Sent, arrivals: seq<Arrival>, schedule: seq<nat>, k: nat)
    requires s.whole.fragments.Keys == Below(t.Count()) && |arrivals| == |schedule| && k <= |schedule|
    requires forall j | 0 <= j < |schedule| :: schedule[j] < t.Count() && s.Index(arrivals[j]) == {schedule[j]}
    ensures s.Complete(s.Got(arrivals[..k])) <==> AllThere(t, schedule[..k])
  {
    GotIsSchedule(s, arrivals, schedule, k);
    CompleteMeansAll(t, s, schedule[..k]);
  }

  /** Reassembly inverts fragmentation: the packets the server cuts a frame
      into, in any order and with any repeats, given to any receiver that has
      neither passed nor begun that sequence number, come out as the frame, its
      codec and its keyframe flag at the call that brings the last missing
      packet, and as nothing at every other call. */
  lemma ReassemblyInvertsFragmentation(t: Transmission, key: Bytes, frame: Bytes, run: Run, schedule: seq<nat>, k: nat)
    requires t.Sendable() && run.Valid() && run.key == key && Feeds(t, key, frame, run, schedule)
    requires run.states[0].last < t.seqNo && t.seqNo !in run.states[0].buffers && k < |schedule|
    ensures run.outs[k] ==
            if AllThere(t, schedule[..k + 1]) && !AllThere(t, schedule[..k])
            then Some(Frame(frame, t.codecTag, t.flags % 2 == 1)) else None
  {
    var s := t.AsSent(key, frame);
    FeedsOnlyPieces(t, key, frame, run, schedule);
    AnySchedule(s, run, k);
    CompleteAt(t, s, run.arrivals, schedule, k);
    CompleteAt(t, s, run.arrivals, schedule, k + 1);
  }
}
