/** One client's entry at the server, a network that may do anything, and the
    client's reassembler: what comes out at the end of any run. */
module EndToEnd {
  import opened Wrappers
  import opened Wire
  import opened Aead
  import opened Delivery
  import opened Reassembler
  import opened Fragmenter

  /** One call of `aes_encrypt`, for the client `owner`. */
  datatype Encryption = Encryption(owner: string, key: Bytes, seqNo: nat, frame: Bytes, sealed: Sealed) {
    /** Sealed under the key, with the sequence number as associated data. */
    predicate Valid() {
      seqNo < Pow256(8) && sealed.key == key && sealed.aad == Pack(seqNo, 8)
    }
  }

  datatype Delivered = Delivered(seqNo: int, frame: Frame)

  /** The server's entry for the client `owner` (key and sequence number),
      everything it has encrypted for anyone, and the receiver that holds
      `clientKey` with everything it has handed out. */
  datatype Link = Link(owner: string, entryKey: Bytes, seqNo: nat, log: Log, encrypted: set<Encryption>,
                       clientKey: Bytes, receiver: Receiver, delivered: seq<Delivered>)

  datatype Event =
    /** One frame for this client; the socket takes `sent` packets and then, if
        they are not all, raises. */
    | Broadcast(frame: Bytes, codecTag: Byte, flags: Byte, nonce: Bytes, ciphertext: Bytes, sent: nat)
    /** A frame is encrypted for other clients. */
    | Elsewhere(frame: Bytes, others: set<Encryption>)
    /** A heartbeat of a new session replaces the key of the entry. */
    | Rekey(key: Bytes)
    /** The entry was dropped and made anew: it counts from zero again. */
    | Reregister(key: Bytes)
    /** Any bytes at all reach the client. */
    | Receipt(packet: Bytes, now: int, stamp: int)

  /** What the sealed frame is sent as. */
  function TransmissionOf(l: Link, e: Event): Transmission
    requires e.Broadcast?
  {
    Transmission(l.seqNo, e.codecTag, e.flags, e.nonce, e.ciphertext)
  }

  predicate Enabled(l: Link, e: Event) {
    match e
    case Broadcast(frame, codecTag, flags, nonce, ciphertext, sent) =>
      && codecTag in {CODEC_TAG_JPEG, CODEC_TAG_H264}
      && (l.seqNo < Pow256(8) && |frame| <= MAX_FRAME_BYTES ==>
            && |nonce| == GCM_NONCE_LEN
            && CanSeal(l.log, Sealed(l.entryKey, nonce, Pack(l.seqNo, 8), ciphertext), frame)
            && sent <= TransmissionOf(l, e).Count())
    case Elsewhere(frame, others) =>
      forall e | e in others :: e.Valid() && e.frame == frame && (e.sealed in l.log ==> l.log[e.sealed] == frame)
    case Receipt(_, _, _) => l.receiver.Valid()
    case _ => true
  }

  function Next(l: Link, e: Event): Link
    requires Enabled(l, e)
  {
    match e
    case Broadcast(frame, codecTag, flags, nonce, ciphertext, sent) =>
      if l.seqNo >= Pow256(8) || |frame| > MAX_FRAME_BYTES then l  // `struct.pack` raises, or the frame is skipped
      else
        var sealed := Sealed(l.entryKey, nonce, Pack(l.seqNo, 8), ciphertext);
        l.(log := l.log[sealed := frame],
           encrypted := l.encrypted + {Encryption(l.owner, l.entryKey, l.seqNo, frame, sealed)},
           seqNo := if sent == TransmissionOf(l, e).Count() then l.seqNo + 1 else l.seqNo)
    case Elsewhere(frame, others) =>
      l.(log := l.log + (map e | e in others :: e.sealed := frame), encrypted := l.encrypted + others)
    case Rekey(key) => l.(entryKey := key)
    case Reregister(key) => l.(entryKey := key, seqNo := 0)
    case Receipt(packet, now, stamp) =>
      var (r', out) := Receive(l.receiver, packet, l.clientKey, l.log, now, stamp);
      l.(receiver := r',
         delivered := if out.Some? then l.delivered + [Delivered(r'.last, out.value)] else l.delivered)
  }

  predicate Initial(l: Link) {
    l.log == map[] && l.encrypted == {} && l.seqNo == 0 && l.receiver == INITIAL && l.delivered == []
  }

  predicate IsRun(events: seq<Event>, states: seq<Link>) {
    && |states| == |events| + 1 && Initial(states[0])
    && forall k | 0 <= k < |events| :: Enabled(states[k], events[k]) && states[k + 1] == Next(states[k], events[k])
  }

  // -------------------------------------------------------------------------

  predicate Authentic(l: Link, d: Delivered) {
    exists e | e in l.encrypted :: e.key == l.clientKey && e.seqNo == d.seqNo && e.frame == d.frame.payload
  }

  predicate Increasing(ds: seq<Delivered>) {
    forall i, j | 0 <= i < j < |ds| :: ds[i].seqNo < ds[j].seqNo
  }

  predicate LogIsHistory(l: Link) {
    && (forall e | e in l.encrypted :: e.Valid())
    && (forall s | s in l.log :: exists e | e in l.encrypted :: e.sealed == s && e.frame == l.log[s])
  }

  predicate Inv(l: Link) {
    && l.receiver.Valid() && LogIsHistory(l)
    && Increasing(l.delivered)
    && (forall d | d in l.delivered :: d.seqNo <= l.receiver.last && Authentic(l, d))
  }

  lemma BroadcastKeepsLog(l: Link, e: Event)
    requires Enabled(l, e) && e.Broadcast? && LogIsHistory(l)
    ensures LogIsHistory(Next(l, e))
  {
    var l' := Next(l, e);
    if l' != l {
      var sealed := Sealed(l.entryKey, e.nonce, Pack(l.seqNo, 8), e.ciphertext);
      var added := Encryption(l.owner, l.entryKey, l.seqNo, e.frame, sealed);
      forall s | s in l'.log
        ensures exists x | x in l'.encrypted :: x.sealed == s && x.frame == l'.log[s]
      {
        if s == sealed {
          assert added in l'.encrypted;
        } else {
          var x :| x in l.encrypted && x.sealed == s && x.frame == l.log[s];
          assert x in l'.encrypted;
        }
      }
    }
  }

  lemma ElsewhereKeepsLog(l: Link, e: Event)
    requires Enabled(l, e) && e.Elsewhere? && LogIsHistory(l)
    ensures LogIsHistory(Next(l, e))
  {
    var l' := Next(l, e);
    forall s | s in l'.log
      ensures exists x | x in l'.encrypted :: x.sealed == s && x.frame == l'.log[s]
    {
      if x :| x in e.others && x.sealed == s {
        assert x in l'.encrypted;
      } else {
        var x :| x in l.encrypted && x.sealed == s && x.frame == l.log[s];
        assert x in l'.encrypted;
      }
    }
  }

  lemma OutputIsAuthentic(l: Link, packet: Bytes, now: int, stamp: int)
    requires l.receiver.Valid() && LogIsHistory(l)
    requires Receive(l.receiver, packet, l.clientKey, l.log, now, stamp).1.Some?
    ensures var (r', out) := Receive(l.receiver, packet, l.clientKey, l.log, now, stamp);
            Authentic(l, Delivered(r'.last, out.value))
  {
    var (r', out) := Receive(l.receiver, packet, l.clientKey, l.log, now, stamp);
    var sealed := OutputWasSealed(l.receiver, packet, l.clientKey, l.log, now, stamp);
    var x :| x in l.encrypted && x.sealed == sealed && x.frame == l.log[sealed];
    UnpackPack(x.seqNo, 8);
    UnpackPack(r'.last, 8);
  }

  /** What is authentic stays so as the history grows. */
  lemma SameHistory(l: Link, l': Link)
    requires l.clientKey == l'.clientKey && l.encrypted <= l'.encrypted
    ensures forall d | Authentic(l, d) :: Authentic(l', d)
  {
    forall d | Authentic(l, d)
      ensures Authentic(l', d)
    {
      var x :| x in l.encrypted && x.key == l.clientKey && x.seqNo == d.seqNo && x.frame == d.frame.payload;
      assert x in l'.encrypted;
    }
  }

  lemma ReceiptKeepsInv(l: Link, e: Event)
    requires Enabled(l, e) && e.Receipt? && Inv(l)
    ensures Inv(Next(l, e))
  {
    var (r', out) := Receive(l.receiver, e.packet, l.clientKey, l.log, e.now, e.stamp);
    var l' := Next(l, e);
    ReceiveKeepsValid(l.receiver, e.packet, l.clientKey, l.log, e.now, e.stamp);
    SameHistory(l, l');
    if out.Some? {
      OutputIsAuthentic(l, e.packet, e.now, e.stamp);
      DeliveryKeepsOrder(l.delivered, Delivered(r'.last, out.value), l.receiver.last);
    }
  }

  lemma DeliveryKeepsOrder(ds: seq<Delivered>, d: Delivered, last: int)
    requires Increasing(ds) && last < d.seqNo && forall x | x in ds :: x.seqNo <= last
    ensures Increasing(ds + [d])
  {
  }

  lemma NextKeepsInv(l: Link, e: Event)
    requires Enabled(l, e) && Inv(l)
    ensures Inv(Next(l, e))
  {
    SameHistory(l, Next(l, e));
    match e
    case Broadcast(_, _, _, _, _, _) => BroadcastKeepsLog(l, e);
    case Elsewhere(_, _) => ElsewhereKeepsLog(l, e);
    case Receipt(_, _, _) => ReceiptKeepsInv(l, e);
    case _ =>
  }

  /** Streaming is safe end to end. In every run of broadcasts (complete or
      broken off, so that a sequence number is used again), frames for others,
      changes of key, fresh entries that count from zero, and a network that delivers arbitrary bytes:
      what the client hands out has strictly increasing sequence numbers, and
      each payload is a frame the server encrypted under the client's key with
      exactly that sequence number. */
  lemma {:induction false} StreamingIsSafe(events: seq<Event>, states: seq<Link>)
    requires IsRun(events, states)
    ensures Inv(states[|events|])
    ensures Increasing(states[|events|].delivered)
    ensures forall d | d in states[|events|].delivered :: Authentic(states[|events|], d)
  {
    if events != [] {
      var n := |events| - 1;
      StreamingIsSafe(events[..n], states[..n + 1]);
      NextKeepsInv(states[n], events[n]);
    }
  }

  // -------------------------------------------------------------------------
  // And frames come through

  /** The client gets packet `n` of the transmission. */
  predicate Carries(t: Transmission, e: Event, n: nat) {
    t.Sendable() && e.Receipt? && n < t.Count() && e.packet == t.Packet(n)
  }

  /** After `l`, the client gets packet after packet of the transmission, number
      `schedule[k]` at receipt `k`, in whatever order and however often. */
  predicate Carried(t: Transmission, l: Link, schedule: seq<nat>, receipts: seq<Event>, states: seq<Link>) {
    && |receipts| == |schedule| && |states| == |schedule| + 1 && states[0] == l
    && forall k | 0 <= k < |schedule| ::
         && Carries(t, receipts[k], schedule[k])
         && Enabled(states[k], receipts[k]) && states[k + 1] == Next(states[k], receipts[k])
  }

  /** The receipts as calls of the reassembler. */
  function CallsOf(l: Link, receipts: seq<Event>): (calls: seq<Arrival>)
    requires forall k | 0 <= k < |receipts| :: receipts[k].Receipt?
    ensures |calls| == |receipts|
  {
    seq(|receipts|, k requires 0 <= k < |receipts| =>
          Arrival(Decode(receipts[k].packet), l.log, receipts[k].now, receipts[k].stamp))
  }

  lemma {:induction false} OnlyReceiverMoves(t: Transmission, l: Link, schedule: seq<nat>, receipts: seq<Event>,
                                             states: seq<Link>, k: nat)
    requires Carried(t, l, schedule, receipts, states) && k <= |schedule|
    ensures states[k] == l.(receiver := states[k].receiver, delivered := states[k].delivered)
  {
    if k > 0 {
      OnlyReceiverMoves(t, l, schedule, receipts, states, k - 1);
      assert Carries(t, receipts[k - 1], schedule[k - 1]) && states[k - 1 + 1] == Next(states[k - 1], receipts[k - 1]);
    }
  }

  lemma RunOf(t: Transmission, l: Link, schedule: seq<nat>, receipts: seq<Event>, states: seq<Link>)
    returns (run: Run)
    requires l.receiver.Valid() && Carried(t, l, schedule, receipts, states)
    ensures run.Valid() && run.key == l.clientKey && run.arrivals == CallsOf(l, receipts)
    ensures |run.states| == |states| && forall k | 0 <= k < |states| :: run.states[k] == states[k].receiver
    ensures forall k | 0 <= k < |schedule| ::
              states[k + 1].delivered
              == states[k].delivered
                 + if run.outs[k].Some? then [Delivered(states[k + 1].receiver.last, run.outs[k].value)] else []
  {
    var calls := CallsOf(l, receipts);
    var n := |schedule|;
    var outs := seq(n, k requires 0 <= k < n =>
                      if states[k].receiver.Valid() then Step(states[k].receiver, l.clientKey, calls[k]).1 else None);
    run := Run(l.clientKey, calls, seq(n + 1, k requires 0 <= k <= n => states[k].receiver), outs);
    forall k | 0 <= k < n
      ensures Steps(l.clientKey, run.states[k], calls[k], run.states[k + 1], outs[k])
      ensures states[k + 1].delivered
              == states[k].delivered
                 + if outs[k].Some? then [Delivered(states[k + 1].receiver.last, outs[k].value)] else []
    {
      OnlyReceiverMoves(t, l, schedule, receipts, states, k);
      assert Carries(t, receipts[k], schedule[k]) && states[k + 1] == Next(states[k], receipts[k]);
    }
  }

  lemma {:induction false} DeliveredOnce(t: Transmission, l: Link, schedule: seq<nat>, run: Run, states: seq<Link>,
                                         frame: Frame, k: nat)
    requires |states| == |schedule| + 1 == |run.outs| + 1 && k <= |schedule| && states[0].delivered == l.delivered
    requires forall i | 0 <= i < |schedule| ::
               && run.outs[i] == (if AllThere(t, schedule[..i + 1]) && !AllThere(t, schedule[..i]) then Some(frame)
                                  else None)
               && (run.outs[i].Some? ==> states[i + 1].receiver.last == t.seqNo)
               && states[i + 1].delivered
                  == states[i].delivered
                     + if run.outs[i].Some? then [Delivered(states[i + 1].receiver.last, run.outs[i].value)] else []
    requires !AllThere(t, [])
    ensures states[k].delivered
            == l.delivered + if AllThere(t, schedule[..k]) then [Delivered(t.seqNo, frame)] else []
  {
    if k > 0 {
      DeliveredOnce(t, l, schedule, run, states, frame, k - 1);
      if AllThere(t, schedule[..k - 1]) {
        assert forall i | i in schedule[..k - 1] :: i in schedule[..k];
      }
    } else {
      assert schedule[..0] == [];
    }
  }

  lemma OutputMovesTo(r: Receiver, key: Bytes, a: Arrival)
    requires r.Valid() && Step(r, key, a).1.Some?
    ensures a.input.Some? && Step(r, key, a).0.last == a.input.value.seqNo
  {
    OpenedFrames(r, a.input.value, a.now, a.stamp);
  }

  lemma BroadcastIsSendable(l: Link, e: Event)
    requires Enabled(l, e) && e.Broadcast? && l.seqNo < Pow256(8) && |e.frame| <= MAX_FRAME_BYTES
    ensures TransmissionOf(l, e).Sendable()
  {
  }

  /** A frame that is broadcast comes through: when its packets get to the client,
      in whatever order and however often, then the frame, under its number and
      with its codec and its keyframe flag, is handed out once all of them were
      there, exactly once and nothing else; provided the client holds the entry's
      key and has neither passed nor begun that number. */
  lemma FrameComesThrough(l: Link, e: Event, schedule: seq<nat>, receipts: seq<Event>, states: seq<Link>, k: nat)
    requires Enabled(l, e) && e.Broadcast? && l.seqNo < Pow256(8) && |e.frame| <= 8_388_608
    requires l.receiver.Valid() && l.entryKey == l.clientKey
    requires l.receiver.last < l.seqNo && l.seqNo !in l.receiver.buffers
    requires Carried(TransmissionOf(l, e), Next(l, e), schedule, receipts, states) && k <= |schedule|
    ensures states[k].delivered
            == l.delivered + if AllThere(TransmissionOf(l, e), schedule[..k])
                             then [Delivered(l.seqNo, Frame(e.frame, e.codecTag, e.flags % 2 == 1))] else []
  {
    var t, l', frame := TransmissionOf(l, e), Next(l, e), Frame(e.frame, e.codecTag, e.flags % 2 == 1);
    BroadcastIsSendable(l, e);
    var run := RunOf(t, l', schedule, receipts, states);
    forall i | 0 <= i < |schedule|
      ensures run.arrivals[i].input == Decode(t.Packet(schedule[i])) && schedule[i] < t.Count()
    {
      assert Carries(t, receipts[i], schedule[i]);
    }
    assert Feeds(t, l.clientKey, e.frame, run, schedule);
    forall i | 0 <= i < |schedule|
      ensures run.outs[i]
              == (if AllThere(t, schedule[..i + 1]) && !AllThere(t, schedule[..i]) then Some(frame) else None)
      ensures run.outs[i].Some? ==> states[i + 1].receiver.last == t.seqNo
    {
      ReassemblyInvertsFragmentation(t, l.clientKey, e.frame, run, schedule, i);
      t.PacketDecodes(schedule[i]);
      assert Steps(l.clientKey, run.states[i], run.arrivals[i], run.states[i + 1], run.outs[i]);
      if run.outs[i].Some? {
        OutputMovesTo(run.states[i], l.clientKey, run.arrivals[i]);
      }
    }
    t.CountFacts();
    assert !AllThere(t, []) by {
      assert 0 !in [];
    }
    DeliveredOnce(t, l', schedule, run, states, frame, k);
  }
}
