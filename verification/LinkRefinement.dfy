/** The sender of the end-to-end model is what the streaming service does for
    one of its clients: every change of the client's entry is one step there. */
module LinkRefinement {
  import opened Wrappers
  import opened Wire
  import opened Aead
  import opened AuthModel
  import opened Heartbeat
  import opened StreamModel
  import opened StreamServer
  import opened Server
  import ClientTable
  import Grants
  import KeyAgreement
  import Replay
  import Link = EndToEnd

  /** The link's sender has the entry's key and sequence number. */
  predicate Mirrors(l: Link.Link, t: Table, fp: Fp) {
    fp in t ==> l.entryKey == t[fp].key && l.seqNo == t[fp].seqNo
  }

  /** A registration is a change of key or a fresh entry; a heartbeat that finds
      the table full, or is another device's, leaves the link alone. */
  lemma RegistrationIsLinkStep(l: Link.Link, t: Table, name: Fp, s: Session, ip: string, port: nat, now: int, fp: Fp)
    requires Mirrors(l, t, fp)
    ensures var (t', v) := Register(t, name, s, ip, port, now);
            if fp != name || v == TableFull then Mirrors(l, t', fp)
            else
              var e := if fp in t then Link.Rekey(s.key) else Link.Reregister(s.key);
              Link.Enabled(l, e) && fp in t' && Mirrors(Link.Next(l, e), t', fp)
  {
  }

  /** What a client's turn is for its link. */
  function TurnEvent(seqNo: nat, p: Picture, d: Chance): Link.Event {
    Link.Broadcast(p.bytes, p.codecTag, p.flags, d.nonce, d.ciphertext, Leaving(Transmitted(seqNo, p, d), d))
  }

  /** What the cipher gives for this client is possible for its link. */
  predicate Sealable(l: Link.Link, p: Picture, d: Chance) {
    && Possible(p, d)
    && (Reaches(l.seqNo, p) ==>
          CanSeal(l.log, Sealed(l.entryKey, d.nonce, Pack(l.seqNo, 8), d.ciphertext), p.bytes))
  }

  /** A client that stays in the table through a round has made one broadcast
      step, complete or broken off; and the packets that left are the first ones
      of that step's transmission, sealed in the log for its sequence number. */
  lemma RoundIsLinkStep(l: Link.Link, a: Auth, t: Table, p: Picture, chances: map<Fp, Chance>, fp: Fp)
    requires fp in t && t.Keys <= chances.Keys && Mirrors(l, t, fp)
    requires forall k | k in chances :: Possible(p, chances[k])
    requires Sealable(l, p, chances[fp])
    ensures var e := TurnEvent(l.seqNo, p, chances[fp]);
            && Link.Enabled(l, e)
            && Mirrors(Link.Next(l, e), Round(a, t, Turns(t, p, chances)).1, fp)
            && WireOf(t, p, chances)[fp] == OnWire(l.seqNo, p, chances[fp])
            && (Reaches(l.seqNo, p) ==>
                  && Link.TransmissionOf(l, e).Sendable()
                  && OnWire(l.seqNo, p, chances[fp]) == Link.TransmissionOf(l, e).Packets(e.sent)
                  && Sealed(l.entryKey, e.nonce, Pack(l.seqNo, 8), e.ciphertext) in Link.Next(l, e).log)
  {
    var d := chances[fp];
    if Reaches(l.seqNo, p) {
      TransmittedIsSendable(l.seqNo, p, d);
    }
  }

  /** Cleanup changes nobody's entry who stays. */
  lemma CleanupLeavesLink(l: Link.Link, a: Auth, t: Table, now: int, fp: Fp)
    requires Mirrors(l, t, fp)
    ensures Mirrors(l, Cleanup(a, t, now).1, fp)
  {
  }

  // -------------------------------------------------------------------------
  // Whole runs of the server, the network and one client

  /** What happens next: a step of the server, in which a broadcast round has
      its picture and its chances, or any bytes at all reach the client. */
  datatype Joint =
    | ServerTurn(step: Step, picture: Picture, chances: map<Fp, Chance>)
    | Receipt(packet: Bytes, now: int, stamp: int)

  /** What a round encrypts for the client `k`. */
  function EncryptionOf(k: Fp, c: Client, p: Picture, d: Chance): Link.Encryption
    requires c.seqNo < Pow256(8)
  {
    Link.Encryption(k, c.key, c.seqNo, p.bytes, Sealed(c.key, d.nonce, Pack(c.seqNo, 8), d.ciphertext))
  }

  /** What a round encrypts for everyone but `fp`. */
  function OthersOf(t: Table, fp: Fp, p: Picture, chances: map<Fp, Chance>): set<Link.Encryption>
    requires t.Keys <= chances.Keys
  {
    set k | k in t && k != fp && Reaches(t[k].seqNo, p) :: EncryptionOf(k, t[k], p, chances[k])
  }

  /** The turns are those that the chances give, and the cipher can give them,
      for every client there is. */
  predicate RoundFits(t: Table, log: Log, turns: map<Fp, Turn>, p: Picture, chances: map<Fp, Chance>) {
    && t.Keys <= chances.Keys && (forall k | k in chances :: Possible(p, chances[k]))
    && turns == Turns(t, p, chances)
    && forall k | k in t && Reaches(t[k].seqNo, p) ::
         CanSeal(log, EncryptionOf(k, t[k], p, chances[k]).sealed, p.bytes)
  }

  function OthersEvent(t: Table, fp: Fp, p: Picture, chances: map<Fp, Chance>): Link.Event
    requires t.Keys <= chances.Keys
  {
    Link.Elsewhere(p.bytes, OthersOf(t, fp, p, chances))
  }

  /** A round is, for the client's link, the encryptions for all others, and its
      own turn if it has one. */
  predicate RoundGoes(t: Table, l: Link.Link, fp: Fp, p: Picture, chances: map<Fp, Chance>, l': Link.Link)
    requires t.Keys <= chances.Keys
  {
    var others := OthersEvent(t, fp, p, chances);
    && Link.Enabled(l, others)
    && LinkGoes(Link.Next(l, others), if fp in t then Some(TurnEvent(l.seqNo, p, chances[fp])) else None, l')
  }

  /** What a change of the table outside a round is for the client's link. */
  function EntryEvent(t: Table, t': Table, fp: Fp): Option<Link.Event> {
    if fp !in t' then None
    else if fp !in t then Some(Link.Reregister(t'[fp].key))
    else if t'[fp].key != t[fp].key then Some(Link.Rekey(t'[fp].key))
    else None
  }

  predicate LinkGoes(l: Link.Link, e: Option<Link.Event>, l': Link.Link) {
    match e
    case None => l' == l
    case Some(x) => Link.Enabled(l, x) && l' == Link.Next(l, x)
  }

  predicate JointGoes(g: Setting, fp: Fp, w: World, l: Link.Link, j: Joint, w': World, l': Link.Link) {
    match j
    case Receipt(packet, now, stamp) => w' == w && LinkGoes(l, Some(Link.Receipt(packet, now, stamp)), l')
    case ServerTurn(s, p, chances) =>
      && Goes(g, w, s, w')
      && if s.event.BroadcastRound?
         then RoundFits(w.table, l.log, s.event.turns, p, chances) && RoundGoes(w.table, l, fp, p, chances, l')
         else LinkGoes(l, EntryEvent(w.table, w'.table, fp), l')
  }

  /** A run of all three together; the log holds what was sealed for anyone. */
  predicate IsJointRun(g: Setting, fp: Fp, joint: seq<Joint>, worlds: seq<World>, links: seq<Link.Link>) {
    && |worlds| == |links| == |joint| + 1
    && Initial(worlds[0]) && Link.Initial(links[0]) && links[0].owner == fp
    && forall k | 0 <= k < |joint| ::
         JointGoes(g, fp, worlds[k], links[k], joint[k], worlds[k + 1], links[k + 1])
  }

  // -------------------------------------------------------------------------
  // Every server step keeps the mirror

  /** Sequence numbers outside a round: a client that was there keeps its own, a
      new one starts from zero. */
  predicate NumbersStay(t: Table, t': Table, fp: Fp) {
    fp in t' ==> t'[fp].seqNo == if fp in t then t[fp].seqNo else 0
  }

  lemma EntryMirrors(l: Link.Link, t: Table, t': Table, fp: Fp, l': Link.Link)
    requires Mirrors(l, t, fp) && NumbersStay(t, t', fp) && LinkGoes(l, EntryEvent(t, t', fp), l')
    ensures Mirrors(l', t', fp) && l'.owner == l.owner && l'.encrypted == l.encrypted
  {
  }

  lemma NumbersStayInStep(g: Setting, w: World, e: Event, at: int, fp: Fp)
    requires !e.BroadcastRound?
    ensures NumbersStay(w.table, TableAfter(g, w, e, at), fp)
  {
    if e.Datagram? && e.udpAllowed && Parse(e.data).Some? {
      BeatEffect(g.c, w.auth, w.table, Parse(e.data).value, e.ip, e.port, at);
    }
  }

  /** Once the others' frames are sealed, the client's own can be. */
  lemma StillSealable(t: Table, l: Link.Link, fp: Fp, turns: map<Fp, Turn>, p: Picture, chances: map<Fp, Chance>)
    requires RoundFits(t, l.log, turns, p, chances) && Mirrors(l, t, fp)
    ensures var others := OthersEvent(t, fp, p, chances);
            && Link.Enabled(l, others)
            && Mirrors(Link.Next(l, others), t, fp)
            && (fp in t ==> Sealable(Link.Next(l, others), p, chances[fp]))
  {
    forall e | e in OthersOf(t, fp, p, chances)
      ensures e.Valid() && e.frame == p.bytes && (e.sealed in l.log ==> l.log[e.sealed] == p.bytes)
    {
      var k :| k in t && k != fp && Reaches(t[k].seqNo, p) && e == EncryptionOf(k, t[k], p, chances[k]);
      assert CanSeal(l.log, EncryptionOf(k, t[k], p, chances[k]).sealed, p.bytes);
    }
    if fp in t && Reaches(t[fp].seqNo, p) {
      assert CanSeal(l.log, EncryptionOf(fp, t[fp], p, chances[fp]).sealed, p.bytes);
    }
  }

  /** Any round that the cipher allows can go on at the link. */
  lemma RoundCanGo(t: Table, l: Link.Link, fp: Fp, turns: map<Fp, Turn>, p: Picture, chances: map<Fp, Chance>)
    requires RoundFits(t, l.log, turns, p, chances) && Mirrors(l, t, fp)
    ensures exists l' :: RoundGoes(t, l, fp, p, chances, l')
  {
    StillSealable(t, l, fp, turns, p, chances);
    var between := Link.Next(l, OthersEvent(t, fp, p, chances));
    if fp in t {
      assert RoundGoes(t, l, fp, p, chances, Link.Next(between, TurnEvent(l.seqNo, p, chances[fp])));
    } else {
      assert RoundGoes(t, l, fp, p, chances, between);
    }
  }


  /** Everything in `e'` was in `e`, or is for a client in the table, under the
      key it has there. */
  predicate SealedFrom(t: Table, e: set<Link.Encryption>, e': set<Link.Encryption>) {
    forall x | x in e' :: x in e || (x.owner in t && x.key == t[x.owner].key)
  }

  lemma RoundEffect(a: Auth, t: Table, l: Link.Link, turns: map<Fp, Turn>, p: Picture, chances: map<Fp, Chance>,
                    l': Link.Link)
    requires RoundFits(t, l.log, turns, p, chances) && Mirrors(l, t, l.owner)
    requires RoundGoes(t, l, l.owner, p, chances, l')
    ensures Mirrors(l', Round(a, t, turns).1, l.owner) && l'.owner == l.owner
    ensures SealedFrom(t, l.encrypted, l'.encrypted)
  {
    StillSealable(t, l, l.owner, turns, p, chances);
    var between := Link.Next(l, OthersEvent(t, l.owner, p, chances));
    if l.owner in t {
      RoundIsLinkStep(between, a, t, p, chances, l.owner);
    }
  }

  lemma OtherEffect(g: Setting, w: World, s: Step, l: Link.Link, fp: Fp, t': Table, l': Link.Link)
    requires !s.event.BroadcastRound? && t' == TableAfter(g, w, s.event, s.at)
    requires Mirrors(l, w.table, fp) && LinkGoes(l, EntryEvent(w.table, t', fp), l')
    ensures Mirrors(l', t', fp) && l'.owner == l.owner && SealedFrom(w.table, l.encrypted, l'.encrypted)
  {
    NumbersStayInStep(g, w, s.event, s.at, fp);
    EntryMirrors(l, w.table, t', fp, l');
  }

  lemma ReceiptEffect(l: Link.Link, t: Table, fp: Fp, packet: Bytes, now: int, stamp: int, l': Link.Link)
    requires Mirrors(l, t, fp) && LinkGoes(l, Some(Link.Receipt(packet, now, stamp)), l')
    ensures Mirrors(l', t, fp) && l'.owner == l.owner && SealedFrom(t, l.encrypted, l'.encrypted)
  {
  }

  /** What every joint step keeps of the link, and what it may seal. */
  lemma StepMirrors(g: Setting, fp: Fp, w: World, l: Link.Link, j: Joint, w': World, l': Link.Link)
    requires JointGoes(g, fp, w, l, j, w', l') && Mirrors(l, w.table, fp) && l.owner == fp
    ensures Mirrors(l', w'.table, fp) && l'.owner == fp && SealedFrom(w.table, l.encrypted, l'.encrypted)
  {
    match j
    case Receipt(packet, now, stamp) => ReceiptEffect(l, w.table, fp, packet, now, stamp, l');
    case ServerTurn(s, p, chances) =>
      if s.event.BroadcastRound? {
        RoundEffect(w.auth, w.table, l, s.event.turns, p, chances, l');
      } else {
        OtherEffect(g, w, s, l, fp, w'.table, l');
      }
  }

  lemma StepKeepsInv(g: Setting, fp: Fp, w: World, l: Link.Link, j: Joint, w': World, l': Link.Link)
    requires JointGoes(g, fp, w, l, j, w', l') && Link.Inv(l)
    ensures Link.Inv(l')
  {
    match j
    case Receipt(packet, now, stamp) => LinkGoesKeepsInv(l, Some(Link.Receipt(packet, now, stamp)), l');
    case ServerTurn(s, p, chances) =>
      if s.event.BroadcastRound? {
        var others := OthersEvent(w.table, fp, p, chances);
        var own := if fp in w.table then Some(TurnEvent(l.seqNo, p, chances[fp])) else None;
        Link.NextKeepsInv(l, others);
        LinkGoesKeepsInv(Link.Next(l, others), own, l');
      } else {
        LinkGoesKeepsInv(l, EntryEvent(w.table, w'.table, fp), l');
      }
  }

  lemma LinkGoesKeepsInv(l: Link.Link, e: Option<Link.Event>, l': Link.Link)
    requires LinkGoes(l, e, l') && Link.Inv(l)
    ensures Link.Inv(l')
  {
    if e.Some? {
      Link.NextKeepsInv(l, e.value);
    }
  }

  // -------------------------------------------------------------------------
  // Keys of sessions

  /** The server side of a joint run is a run, with pauses. */
  predicate ServerKept(g: Setting, w: World) {
    Grants.Secrets(w) && KeyAgreement.Keyed(g, w) && ClientTable.Kept(g, w)
  }

  lemma StepKeepsServer(g: Setting, w: World, s: Step, w': World)
    requires Goes(g, w, s, w') && ServerKept(g, w)
    ensures ServerKept(g, w')
  {
    Grants.NextKeepsSecrets(g, w, s.event, s.at);
    KeyAgreement.StepKeepsKeyed(g, w, s, w');
    ClientTable.StepKeepsAll(g, w, s, w');
  }

  /** Every frame is sealed under a key of a session installed for its client. */
  predicate SealedForSessions(w: World, l: Link.Link) {
    forall e | e in l.encrypted :: Replay.KeyOfInstall(w, e.key, e.owner)
  }

  /** Every entry has the key of a session installed for it. */
  predicate EntryKeysInstalled(w: World) {
    forall fp | fp in w.table :: Replay.KeyOfInstall(w, w.table[fp].key, fp)
  }

  lemma StillInstalled(w: World, w': World, key: Bytes, fp: Fp)
    requires Replay.KeyOfInstall(w, key, fp) && w.installs <= w'.installs
    ensures Replay.KeyOfInstall(w', key, fp)
  {
    var i :| i in w.installs && i.key == key && i.fp == fp;
    assert i in w'.installs;
  }

  lemma MoreSealed(w: World, l: Link.Link, w': World, l': Link.Link)
    requires SealedForSessions(w, l) && EntryKeysInstalled(w) && w.installs <= w'.installs
    requires SealedFrom(w.table, l.encrypted, l'.encrypted)
    ensures SealedForSessions(w', l')
  {
    forall e | e in l'.encrypted
      ensures Replay.KeyOfInstall(w', e.key, e.owner)
    {
      StillInstalled(w, w', e.key, e.owner);
    }
  }

  // -------------------------------------------------------------------------
  // Joint runs

  /** One step of a joint run. */
  lemma StepIntoJoint(g: Setting, fp: Fp, joint: seq<Joint>, worlds: seq<World>, links: seq<Link.Link>, k: nat)
    requires IsJointRun(g, fp, joint, worlds, links) && 0 < k < |worlds|
    ensures JointGoes(g, fp, worlds[k - 1], links[k - 1], joint[k - 1], worlds[k], links[k])
  {
    var j := k - 1;
    assert JointGoes(g, fp, worlds[j], links[j], joint[j], worlds[j + 1], links[j + 1]);
  }

  lemma ServerNext(g: Setting, fp: Fp, joint: seq<Joint>, worlds: seq<World>, links: seq<Link.Link>, k: nat)
    requires IsJointRun(g, fp, joint, worlds, links) && 0 < k < |worlds| && ServerKept(g, worlds[k - 1])
    ensures ServerKept(g, worlds[k])
  {
    StepIntoJoint(g, fp, joint, worlds, links, k);
    if joint[k - 1].ServerTurn? {
      StepKeepsServer(g, worlds[k - 1], joint[k - 1].step, worlds[k]);
    }
  }

  lemma {:induction false} ServerAlwaysKept(g: Setting, fp: Fp, joint: seq<Joint>, worlds: seq<World>,
                                            links: seq<Link.Link>, k: nat)
    requires IsJointRun(g, fp, joint, worlds, links) && k < |worlds|
    ensures ServerKept(g, worlds[k])
  {
    if k == 0 {
      ClientTable.InitialKept(g, worlds[0]);
    } else {
      ServerAlwaysKept(g, fp, joint, worlds, links, k - 1);
      ServerNext(g, fp, joint, worlds, links, k);
    }
  }

  lemma EntryKeysAlwaysInstalled(g: Setting, fp: Fp, joint: seq<Joint>, worlds: seq<World>, links: seq<Link.Link>,
                                 k: nat)
    requires IsJointRun(g, fp, joint, worlds, links) && k < |worlds|
    ensures EntryKeysInstalled(worlds[k]) && Replay.Distinct(worlds[k])
  {
    ServerAlwaysKept(g, fp, joint, worlds, links, k);
    forall k' | k' in worlds[k].table
      ensures Replay.KeyOfInstall(worlds[k], worlds[k].table[k'].key, k')
    {
      assert ClientTable.Earned(worlds[k], k', worlds[k].table[k']);
    }
  }

  predicate LinkKept(l: Link.Link, t: Table, fp: Fp) {
    Link.Inv(l) && Mirrors(l, t, fp) && l.owner == fp
  }

  lemma LinkNext(g: Setting, fp: Fp, joint: seq<Joint>, worlds: seq<World>, links: seq<Link.Link>, k: nat)
    requires IsJointRun(g, fp, joint, worlds, links) && 0 < k < |worlds|
    requires LinkKept(links[k - 1], worlds[k - 1].table, fp)
    ensures LinkKept(links[k], worlds[k].table, fp)
  {
    StepIntoJoint(g, fp, joint, worlds, links, k);
    var w, l, j, w', l' := worlds[k - 1], links[k - 1], joint[k - 1], worlds[k], links[k];
    StepMirrors(g, fp, w, l, j, w', l');
    StepKeepsInv(g, fp, w, l, j, w', l');
  }

  lemma {:induction false} LinkAlwaysKept(g: Setting, fp: Fp, joint: seq<Joint>, worlds: seq<World>,
                                          links: seq<Link.Link>, k: nat)
    requires IsJointRun(g, fp, joint, worlds, links) && k < |worlds|
    ensures LinkKept(links[k], worlds[k].table, fp)
  {
    if k > 0 {
      LinkAlwaysKept(g, fp, joint, worlds, links, k - 1);
      LinkNext(g, fp, joint, worlds, links, k);
    }
  }

  lemma HistoryGrows(g: Setting, fp: Fp, joint: seq<Joint>, worlds: seq<World>, links: seq<Link.Link>, k: nat)
    requires IsJointRun(g, fp, joint, worlds, links) && 0 < k < |worlds|
    ensures worlds[k - 1].installs <= worlds[k].installs
    ensures SealedFrom(worlds[k - 1].table, links[k - 1].encrypted, links[k].encrypted)
  {
    LinkAlwaysKept(g, fp, joint, worlds, links, k - 1);
    StepIntoJoint(g, fp, joint, worlds, links, k);
    StepMirrors(g, fp, worlds[k - 1], links[k - 1], joint[k - 1], worlds[k], links[k]);
  }

  lemma SealedNext(g: Setting, fp: Fp, joint: seq<Joint>, worlds: seq<World>, links: seq<Link.Link>, k: nat)
    requires IsJointRun(g, fp, joint, worlds, links) && 0 < k < |worlds|
    requires SealedForSessions(worlds[k - 1], links[k - 1])
    ensures SealedForSessions(worlds[k], links[k])
  {
    EntryKeysAlwaysInstalled(g, fp, joint, worlds, links, k - 1);
    HistoryGrows(g, fp, joint, worlds, links, k);
    MoreSealed(worlds[k - 1], links[k - 1], worlds[k], links[k]);
  }

  lemma {:induction false} AlwaysSealedForSessions(g: Setting, fp: Fp, joint: seq<Joint>, worlds: seq<World>,
                                                   links: seq<Link.Link>, k: nat)
    requires IsJointRun(g, fp, joint, worlds, links) && k < |worlds|
    ensures SealedForSessions(worlds[k], links[k])
  {
    if k > 0 {
      AlwaysSealedForSessions(g, fp, joint, worlds, links, k - 1);
      SealedNext(g, fp, joint, worlds, links, k);
    }
  }

  /** The frame was sealed for `owner`, under the client's key, with the number
      it came out with. */
  predicate SealedFor(l: Link.Link, d: Link.Delivered, owner: Fp) {
    exists e | e in l.encrypted ::
      e.owner == owner && e.key == l.clientKey && e.seqNo == d.seqNo && e.frame == d.frame.payload
  }

  /** From the handshake to the picture. In every run of the server with all its
      clients, of a network that delivers arbitrary bytes, and of one receiver:
      what the receiver hands out has strictly increasing sequence numbers. Each
      payload is a frame that the server sealed, under the receiver's key and
      with that number, for a client for which it had installed a session with
      that key; and if the key is of a session of `name`, that client is `name`,
      whoever else the server was streaming to. */
  lemma PicturesReachAuthenticatedClients(g: Setting, fp: Fp, joint: seq<Joint>, worlds: seq<World>,
                                          links: seq<Link.Link>, k: nat, name: Fp)
    requires IsJointRun(g, fp, joint, worlds, links) && k < |worlds|
    ensures Link.Increasing(links[k].delivered)
    ensures forall d | d in links[k].delivered ::
              exists owner :: SealedFor(links[k], d, owner) && Replay.KeyOfInstall(worlds[k], links[k].clientKey, owner)
    ensures Replay.KeyOfInstall(worlds[k], links[k].clientKey, name) ==>
              forall d | d in links[k].delivered :: SealedFor(links[k], d, name)
  {
    LinkAlwaysKept(g, fp, joint, worlds, links, k);
    AlwaysSealedForSessions(g, fp, joint, worlds, links, k);
    EntryKeysAlwaysInstalled(g, fp, joint, worlds, links, k);
    forall d | d in links[k].delivered
      ensures exists owner :: SealedFor(links[k], d, owner) && Replay.KeyOfInstall(worlds[k], links[k].clientKey, owner)
      ensures Replay.KeyOfInstall(worlds[k], links[k].clientKey, name) ==> SealedFor(links[k], d, name)
    {
      DeliveredWasSealedFor(worlds[k], links[k], d, name);
    }
  }

  lemma DeliveredWasSealedFor(w: World, l: Link.Link, d: Link.Delivered, name: Fp)
    requires Link.Authentic(l, d) && SealedForSessions(w, l) && Replay.Distinct(w)
    ensures exists owner :: SealedFor(l, d, owner) && Replay.KeyOfInstall(w, l.clientKey, owner)
    ensures Replay.KeyOfInstall(w, l.clientKey, name) ==> SealedFor(l, d, name)
  {
    var e :| e in l.encrypted && e.key == l.clientKey && e.seqNo == d.seqNo && e.frame == d.frame.payload;
    assert SealedFor(l, d, e.owner);
    if Replay.KeyOfInstall(w, l.clientKey, name) {
      Replay.OneName(w, l.clientKey, name, e.owner);
    }
  }
}
