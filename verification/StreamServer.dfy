/** The UDP streaming service, in place: heartbeats, the broadcast of a frame
    fragment by fragment over a socket that may fail, and the cleanup. */
module StreamServer {
  import opened Wrappers
  import opened Wire
  import opened AuthModel
  import opened Heartbeat
  import opened StreamModel
  import opened RateLimits
  import opened Fragmenter
  import opened AuthServer
  import Aead

  // -------------------------------------------------------------------------
  // One client's turn

  /** The frame of one round. */
  datatype Picture = Picture(bytes: Bytes, codecTag: Byte, flags: Byte)

  /** What one turn meets: the nonce and ciphertext that the encryption gives,
      and the number of packets after which the socket raises, if it does. */
  datatype Chance = Chance(nonce: Bytes, ciphertext: Bytes, raisesAfter: Option<nat>)

  /** The library's side: nonces are 12 bytes, and the tag adds 16. */
  predicate Possible(p: Picture, d: Chance) {
    && p.codecTag in {CODEC_TAG_JPEG, CODEC_TAG_H264}
    && |d.nonce| == GCM_NONCE_LEN && |d.ciphertext| == |p.bytes| + Aead.TAG_LEN
  }

  function Transmitted(seqNo: nat, p: Picture, d: Chance): Transmission {
    Transmission(seqNo, p.codecTag, p.flags, d.nonce, d.ciphertext)
  }

  /** A sequence number of more than eight bytes cannot be packed; a frame that
      is too large is passed over. */
  predicate Reaches(seqNo: nat, p: Picture) {
    seqNo < Pow256(8) && |p.bytes| <= MAX_FRAME_BYTES
  }

  /** How many packets leave. */
  function Leaving(t: Transmission, d: Chance): (n: nat)
    ensures n <= t.Count()
  {
    if d.raisesAfter.Some? && d.raisesAfter.value < t.Count() then d.raisesAfter.value else t.Count()
  }

  function TurnFor(seqNo: nat, p: Picture, d: Chance): Turn {
    if seqNo >= Pow256(8) then Failed
    else if |p.bytes| > MAX_FRAME_BYTES then Skipped
    else
      var t := Transmitted(seqNo, p, d);
      if Leaving(t, d) == t.Count() then Sent else Failed
  }

  /** What goes out on the wire: the first packets of the transmission. */
  function OnWire(seqNo: nat, p: Picture, d: Chance): seq<Bytes>
    requires Possible(p, d)
  {
    if Reaches(seqNo, p) then
      var t := Transmitted(seqNo, p, d);
      t.Packets(Leaving(t, d))
    else []
  }

  /** A frame that was sent whole costs its ciphertext and a header a fragment;
      one that broke off is not counted. */
  function Cost(seqNo: nat, p: Picture, d: Chance): nat {
    if TurnFor(seqNo, p, d) == Sent
    then |d.ciphertext| + FRAME_HEADER_SIZE * Transmitted(seqNo, p, d).Count()
    else 0
  }

  /** A turn sends every packet of the frame, and counts their bytes, exactly when
      the sequence number fits in eight bytes, the frame is at most 8 MiB and the
      socket takes all the packets. A larger frame is passed over. If the number
      does not fit or the socket raises, the turn has failed, and what is on the
      wire are the packets before that. */
  lemma TurnsExactly(seqNo: nat, p: Picture, d: Chance)
    requires Possible(p, d)
    ensures var turn, t := TurnFor(seqNo, p, d), Transmitted(seqNo, p, d);
            var fits, large := seqNo < 0x1_0000_0000_0000_0000, |p.bytes| > 8_388_608;
            var taken := d.raisesAfter.None? || d.raisesAfter.value >= t.Count();
            && (turn == Sent <==> fits && !large && taken)
            && (turn == Skipped <==> fits && large)
            && (fits && !large ==>
                  && t.Sendable()
                  && OnWire(seqNo, p, d) == t.Packets(if taken then t.Count() else d.raisesAfter.value))
            && (!fits || large ==> OnWire(seqNo, p, d) == [])
            && Cost(seqNo, p, d) == (if turn == Sent then t.SentBytes(t.Count()) else 0)
  {
    assert Pow256(8) == 0x1_0000_0000_0000_0000 by {
      assert Pow256(4) == 0x1_0000_0000;
    }
    if Reaches(seqNo, p) {
      Transmitted(seqNo, p, d).SentBytesTotal();
    }
  }

  /** The bytes of one packet, field by field. */
  lemma PacketBytes(t: Transmission, i: nat)
    requires t.Sendable() && i < t.Count()
    ensures i < Pow256(2) && t.Count() < Pow256(2) && |t.nonce| < Pow256(4)
    ensures i * PACKET_MAX_PAYLOAD == t.Offset(i) < |t.ciphertext|
    ensures t.Packet(i) == [t.codecTag] + [t.flags] + Pack(t.seqNo, 8) + Pack(i, 2) + Pack(t.Count(), 2)
                           + Pack(|t.nonce|, 4) + t.nonce + t.Chunk(i)
  {
    t.CountFacts();
    t.PieceFacts(i);
  }

  /** What it comes to when the last packet to leave has left. */
  lemma SentUpTo(seqNo: nat, p: Picture, d: Chance, n: nat)
    requires Possible(p, d) && Reaches(seqNo, p) && n == Leaving(Transmitted(seqNo, p, d), d)
    ensures var t := Transmitted(seqNo, p, d);
            && OnWire(seqNo, p, d) == t.Packets(n)
            && (TurnFor(seqNo, p, d) == Sent <==> n == t.Count())
            && (n == t.Count() ==> Cost(seqNo, p, d) == t.SentBytes(n))
  {
    Transmitted(seqNo, p, d).SentBytesTotal();
  }

  lemma RaisesWhenAllHaveLeft(t: Transmission, d: Chance, i: nat)
    requires i <= Leaving(t, d) && i < t.Count()
    ensures d.raisesAfter == Some(i) <==> i == Leaving(t, d)
  {
  }

  lemma OneMorePacket(t: Transmission, k: nat)
    requires t.Sendable() && k < t.Count()
    ensures t.Packets(k + 1) == t.Packets(k) + [t.Packet(k)]
    ensures t.SentBytes(k + 1) == t.SentBytes(k) + |t.Packet(k)|
  {
  }

  function Turns(t: Table, p: Picture, chances: map<Fp, Chance>): map<Fp, Turn>
    requires t.Keys <= chances.Keys
  {
    map fp | fp in t :: TurnFor(t[fp].seqNo, p, chances[fp])
  }

  function WireOf(t: Table, p: Picture, chances: map<Fp, Chance>): map<Fp, seq<Bytes>>
    requires t.Keys <= chances.Keys && forall fp | fp in chances :: Possible(p, chances[fp])
  {
    map fp | fp in t :: OnWire(t[fp].seqNo, p, chances[fp])
  }

  /** In the middle of a round: `todo` have not had their turn yet. */
  predicate Partway(before: Table, turns: map<Fp, Turn>, todo: set<Fp>, t: Table, dead: set<Fp>) {
    && todo <= t.Keys == before.Keys
    && (forall fp | fp in t :: t[fp] == if fp in todo then before[fp] else AfterTurn(before[fp], TurnOf(turns, fp)))
    && dead == Worn(before, turns) - todo
  }

  lemma OneMoreTurn(before: Table, turns: map<Fp, Turn>, todo: set<Fp>, t: Table, dead: set<Fp>, fp: Fp)
    requires Partway(before, turns, todo, t, dead) && fp in todo
    ensures Partway(before, turns, todo - {fp}, t[fp := AfterTurn(t[fp], TurnOf(turns, fp))],
                    if fp in Worn(before, turns) then dead + {fp} else dead)
  {
  }

  lemma OneMoreKey<V>(all: map<Fp, V>, todo: set<Fp>, fp: Fp)
    requires fp in todo && fp in all
    ensures (all - todo)[fp := all[fp]] == all - (todo - {fp})
  {
  }

  lemma AllKeys<V>(all: map<Fp, V>)
    ensures all - {} == all
  {
  }

  lemma AllTurns(before: Table, turns: map<Fp, Turn>, t: Table, dead: set<Fp>)
    requires Partway(before, turns, {}, t, dead)
    ensures t == AfterTurns(before, turns) && dead == Worn(before, turns)
  {
  }

  lemma TransmittedIsSendable(seqNo: nat, p: Picture, d: Chance)
    requires Possible(p, d) && Reaches(seqNo, p)
    ensures Transmitted(seqNo, p, d).Sendable()
  {
  }

  /** Removing single-use sessions one name at a time. */
  lemma RemoveOneMore(a: Auth, gone: set<Fp>, fp: Fp)
    ensures RemoveIfSingleUse(RemoveSingleUse(a, gone), fp) == RemoveSingleUse(a, gone + {fp})
  {
    var one, all := RemoveIfSingleUse(RemoveSingleUse(a, gone), fp), RemoveSingleUse(a, gone + {fp});
    assert one.sessions == all.sessions;
  }

  lemma RemoveNobody(a: Auth)
    ensures RemoveSingleUse(a, {}) == a
  {
    assert RemoveSingleUse(a, {}).sessions == a.sessions;
  }

  // -------------------------------------------------------------------------
  // The service

  class StreamService {
    const auth: AuthService
    const limiter: UdpRateLimiter
    var clients: Table
    var bytesSent: nat

    ghost function Repr(): set<object> {
      {this, limiter} + auth.Repr()
    }

    ghost predicate Valid()
      reads Repr()
    {
      && this !in auth.Repr() && limiter !in auth.Repr() && auth.Valid()
      && limiter.Valid() && limiter.window == UDP_RATE_LIMIT_WINDOW && limiter.max == UDP_RATE_LIMIT_PACKETS
    }

    constructor (auth: AuthService, now: int)
      requires auth.Valid()
      ensures Valid() && fresh(Repr() - auth.Repr()) && this.auth == auth
      ensures clients == map[] && bytesSent == 0 && limiter.history == map[] && limiter.clock == now
    {
      this.auth := auth;
      limiter := new UdpRateLimiter(UDP_RATE_LIMIT_WINDOW, UDP_RATE_LIMIT_PACKETS, now);
      clients := map[];
      bytesSent := 0;
    }

    // -----------------------------------------------------------------------
    // Heartbeats

    /** A heartbeat with a valid tag: pin or compare the address, then take the
        nonce. */
    method Admit(b: Beat, ip: string, now: int) returns (refusal: Option<Verdict>)
      requires Valid() && b.name in auth.sessions && !auth.sessions[b.name].Expired(now)
      modifies auth
      ensures Valid() && (auth.State(), refusal) == AdmitBeat(old(auth.State()), b, ip)
    {
      var session := auth.sessions[b.name];
      if session.udpIp.None? {
        session := session.(udpIp := Some(ip));
        auth.sessions := auth.sessions[b.name := session];
      } else if session.udpIp.value != ip {
        return Some(WrongIp);
      }
      var taken := auth.CheckAndAddNonce(b.name, b.nonce, now);
      refusal := if taken then None else Some(Replayed);
    }

    method Enter(b: Beat, ip: string, port: nat, now: int) returns (verdict: Verdict)
      requires Valid() && b.name in auth.sessions
      modifies this`clients
      ensures Valid()
      ensures (clients, verdict) == Register(old(clients), b.name, auth.sessions[b.name], ip, port, now)
    {
      var session := auth.sessions[b.name];
      if b.name !in clients {
        if |clients| >= MAX_STREAM_CLIENTS {
          return TableFull;
        }
        var name := if session.deviceName == "" then "Unknown" else session.deviceName;
        clients := clients[b.name := Client(ip, port, session.key, now, 0, now, name, 0, 0)];
      } else {
        var existing := clients[b.name];
        existing := existing.(lastHb := now, ip := ip);
        existing := existing.(port := port, key := session.key);
        clients := clients[b.name := existing];
      }
      verdict := Streaming;
    }

    /** One datagram: the step `OnHeartbeat`, under the verdict that the
        limiter's rule gives. `ticks` is the monotonic clock. */
    method OnHeartbeat(data: Bytes, ip: string, port: nat, now: int, ticks: int) returns (verdict: Verdict)
      requires Valid() && limiter.clock <= ticks
      modifies this`clients, limiter, auth
      ensures Valid() && limiter.clock == ticks
      ensures var allowed := WouldAllow(old(limiter.history), ip, ticks, UDP_RATE_LIMIT_WINDOW, UDP_RATE_LIMIT_PACKETS);
              && limiter.history == Recorded(old(limiter.history), ip, ticks, allowed)
              && (auth.State(), clients, verdict)
                 == StreamModel.OnHeartbeat(auth.c, old(auth.State()), old(clients), data, ip, port, now, allowed)
    {
      var allowed := limiter.Allow(ip, ticks);
      if !allowed {
        return RateDropped;
      }
      var parsed := Parse(data);
      if parsed.None? {
        return BadPacket;
      }
      var b := parsed.value;
      var has := auth.HasSession(b.name, now);
      if !has {
        return NoSession;
      }
      var key := auth.sessions[b.name].key;
      if !WithinSkew(now, b) {
        return BadTime;
      }
      if !TagVerifies(auth.c, key, b) {
        return BadTag;
      }
      var refusal := Admit(b, ip, now);
      if refusal.Some? {
        return refusal.value;
      }
      verdict := Enter(b, ip, port, now);
    }

    // -----------------------------------------------------------------------
    // Broadcast

    method BuildPacket(seqNo: nat, p: Picture, d: Chance, aad: Bytes, fragIndex: nat, fragCount: nat)
      returns (packet: Bytes)
      requires Possible(p, d) && Reaches(seqNo, p) && Transmitted(seqNo, p, d).Sendable()
      requires aad == Pack(seqNo, 8) && fragIndex < fragCount == Transmitted(seqNo, p, d).Count()
      ensures packet == Transmitted(seqNo, p, d).Packet(fragIndex)
    {
      PacketBytes(Transmitted(seqNo, p, d), fragIndex);
      var start := fragIndex * PACKET_MAX_PAYLOAD;
      var stop := start + PACKET_MAX_PAYLOAD;
      var chunk := d.ciphertext[start..if stop <= |d.ciphertext| then stop else |d.ciphertext|];
      packet := [p.codecTag] + [p.flags] + aad + Pack(fragIndex, 2) + Pack(fragCount, 2) + Pack(|d.nonce|, 4)
              + d.nonce + chunk;
    }

    /** Fragment by fragment, until all are out or the socket raises. */
    method SendFragments(seqNo: nat, p: Picture, d: Chance) returns (packets: seq<Bytes>, sentBytes: nat, whole: bool)
      requires Possible(p, d) && Reaches(seqNo, p)
      ensures packets == OnWire(seqNo, p, d)
      ensures whole <==> TurnFor(seqNo, p, d) == Sent
      ensures whole ==> sentBytes == Cost(seqNo, p, d)
    {
      var aad := Pack(seqNo, 8);
      ghost var t := Transmitted(seqNo, p, d);
      TransmittedIsSendable(seqNo, p, d);
      ghost var leaving := Leaving(t, d);
      SentUpTo(seqNo, p, d, leaving);
      var fragCount := FragCount(|d.ciphertext|);
      packets, sentBytes := [], 0;
      for fragIndex := 0 to fragCount
        invariant fragIndex <= leaving
        invariant packets == t.Packets(fragIndex) && sentBytes == t.SentBytes(fragIndex)
      {
        RaisesWhenAllHaveLeft(t, d, fragIndex);
        if d.raisesAfter == Some(fragIndex) {
          return packets, sentBytes, false;
        }
        var packet := BuildPacket(seqNo, p, d, aad, fragIndex, fragCount);
        OneMorePacket(t, fragIndex);
        packets := packets + [packet];
        sentBytes := sentBytes + |packet|;
      }
      whole := true;
    }

    /** One client's turn in a round. */
    method SendFrame(fp: Fp, p: Picture, d: Chance) returns (turn: Turn, packets: seq<Bytes>)
      requires fp in clients && Possible(p, d)
      modifies this`clients, this`bytesSent
      ensures turn == TurnFor(old(clients)[fp].seqNo, p, d)
      ensures clients == old(clients)[fp := AfterTurn(old(clients)[fp], turn)]
      ensures packets == OnWire(old(clients)[fp].seqNo, p, d)
      ensures bytesSent == old(bytesSent) + Cost(old(clients)[fp].seqNo, p, d)
    {
      var client := clients[fp];
      packets := [];
      if client.seqNo >= Pow256(8) {
        clients := clients[fp := client.(sendErrors := client.sendErrors + 1)];
        return Failed, [];
      }
      if |p.bytes| > MAX_FRAME_BYTES {
        assert clients[fp := client] == clients;
        return Skipped, [];
      }
      if FragCount(|d.ciphertext|) > MAX_FRAGS_PER_FRAME {
        TransmittedIsSendable(client.seqNo, p, d);
        Transmitted(client.seqNo, p, d).CountFacts();
        assert false;
      }
      var sentBytes, whole;
      packets, sentBytes, whole := SendFragments(client.seqNo, p, d);
      if whole {
        client := client.(seqNo := client.seqNo + 1, framesSent := client.framesSent + 1, sendErrors := 0);
        bytesSent := bytesSent + sentBytes;
        turn := Sent;
      } else {
        client := client.(sendErrors := client.sendErrors + 1);
        turn := Failed;
      }
      clients := clients[fp := client];
    }

    /** Drop the clients, and the single-use sessions that go with them. */
    method DropClients(names: set<Fp>)
      requires Valid() && names <= clients.Keys
      modifies this`clients, auth
      ensures Valid() && clients == old(clients) - names
      ensures auth.State() == RemoveSingleUse(old(auth.State()), names)
    {
      var dead := names;
      RemoveNobody(auth.State());
      while dead != {}
        invariant Valid() && dead <= names
        invariant clients == old(clients) - (names - dead)
        invariant auth.State() == RemoveSingleUse(old(auth.State()), names - dead)
        decreases dead
      {
        var fp :| fp in dead;
        RemoveOneMore(old(auth.State()), names - dead, fp);
        assert names - (dead - {fp}) == names - dead + {fp};
        clients := clients - {fp};
        auth.RemoveSessionIfSingleUse(fp);
        dead := dead - {fp};
      }
      assert names - dead == names;
    }

    /** Every client's turn, and who failed once too often. */
    method TakeTurns(p: Picture, chances: map<Fp, Chance>) returns (dead: set<Fp>, wire: map<Fp, seq<Bytes>>)
      requires clients.Keys <= chances.Keys && forall fp | fp in chances :: Possible(p, chances[fp])
      modifies this`clients, this`bytesSent
      ensures clients == AfterTurns(old(clients), Turns(old(clients), p, chances))
      ensures dead == Worn(old(clients), Turns(old(clients), p, chances))
      ensures wire == WireOf(old(clients), p, chances)
    {
      ghost var before, turns, all := clients, Turns(clients, p, chances), WireOf(clients, p, chances);
      var todo := clients.Keys;
      dead, wire := {}, map[];
      while todo != {}
        invariant Partway(before, turns, todo, clients, dead)
        invariant wire == all - todo
        decreases todo
      {
        var fp :| fp in todo;
        OneMoreTurn(before, turns, todo, clients, dead, fp);
        OneMoreKey(all, todo, fp);
        var turn, packets := SendFrame(fp, p, chances[fp]);
        if turn == Failed && clients[fp].sendErrors >= MAX_SOCKET_ERRORS_BEFORE_EVICT {
          dead := dead + {fp};
        }
        wire := wire[fp := packets];
        todo := todo - {fp};
      }
      AllTurns(before, turns, clients, dead);
      AllKeys(all);
    }

    /** One round of the broadcast: everyone's turn, and then those that failed
        once too often are dropped. */
    method BroadcastRound(p: Picture, chances: map<Fp, Chance>) returns (wire: map<Fp, seq<Bytes>>)
      requires Valid() && clients.Keys <= chances.Keys && forall fp | fp in chances :: Possible(p, chances[fp])
      modifies this`clients, this`bytesSent, auth
      ensures Valid() && wire == WireOf(old(clients), p, chances)
      ensures (auth.State(), clients)
              == Round(old(auth.State()), old(clients), Turns(old(clients), p, chances))
    {
      var dead;
      dead, wire := TakeTurns(p, chances);
      DropClients(dead);
    }

    // -----------------------------------------------------------------------
    // Cleanup, and clients that go

    method CleanupTick(now: int)
      requires Valid()
      modifies this`clients, auth
      ensures Valid() && (auth.State(), clients) == Cleanup(old(auth.State()), old(clients), now)
    {
      var stale := {};
      var todo := clients.Keys;
      while todo != {}
        invariant todo <= clients.Keys && stale == Silent(clients, now) - todo
        decreases todo
      {
        var fp :| fp in todo;
        if now - clients[fp].lastHb > CLIENT_TIMEOUT {
          stale := stale + {fp};
        }
        todo := todo - {fp};
      }
      assert Silent(clients, now) - todo == Silent(clients, now);
      DropClients(stale);
    }

    method RemoveClient(fp: Fp) returns (removed: bool)
      requires Valid()
      modifies this`clients, auth
      ensures Valid() && removed == (fp in old(clients))
      ensures (auth.State(), clients) == StreamModel.RemoveClient(old(auth.State()), old(clients), fp)
    {
      removed := fp in clients;
      if removed {
        clients := clients - {fp};
        auth.RemoveSession(fp);
      }
    }
  }
}
