/** The operator's word: who is trusted and who is blocked at any point of a run,
    what the records hold, and how the next HELLO is answered. */
module Registry {
  import opened Wrappers
  import opened Wire
  import opened Crypto
  import opened AuthModel
  import opened Server
  import Grants
  import Requests
  import TrustState

  // -------------------------------------------------------------------------
  // Who is what

  datatype Standing = IsTrusted | IsRefused | IsUnknown

  predicate Stands(a: Auth, fp: Fp, s: Standing) {
    && (fp in a.trusted <==> s == IsTrusted)
    && (fp in a.blocked <==> s == IsRefused)
  }

  /** A command that changes what a device is, and to what. */
  function Word(w: World, e: Event, fp: Fp): Option<Standing> {
    match e
    case ApproveCmd(name) => if name == fp && fp in w.auth.pending then Some(IsTrusted) else None
    case TrustBlockedCmd(name) => if name == fp && fp in w.auth.blocked then Some(IsTrusted) else None
    case BlockCmd(name) =>
      if name == fp && (fp in w.auth.pending || fp in w.auth.trusted) then Some(IsRefused) else None
    case RemoveTrustCmd(name) => if name == fp && fp in w.auth.trusted then Some(IsUnknown) else None
    case UnblockCmd(name) => if name == fp && fp in w.auth.blocked then Some(IsUnknown) else None
    case _ => None
  }

  predicate Commands(e: Event) {
    e.ApproveCmd? || e.TrustBlockedCmd? || e.BlockCmd? || e.RemoveTrustCmd? || e.UnblockCmd?
  }

  lemma OthersChangeNobody(g: Setting, w: World, e: Event, at: int)
    requires !Commands(e)
    ensures var a' := AuthAfter(g, w, e, at);
            a'.trusted.Keys == w.auth.trusted.Keys && a'.blocked == w.auth.blocked
  {
    match e
    case Datagram(_, _, _, _) => Grants.BeatKeepsRest(g, w, e, at);
    case _ =>
  }

  lemma CommandIsDone(g: Setting, w: World, e: Event, at: int, fp: Fp, s: Standing)
    requires TrustState.Sane(w.auth) && Stands(w.auth, fp, s) && Commands(e)
    ensures Stands(AuthAfter(g, w, e, at), fp, if Word(w, e, fp).Some? then Word(w, e, fp).value else s)
  {
  }

  /** A step makes of a device what the operator says, and otherwise leaves it
      what it was. */
  lemma WordIsDone(g: Setting, w: World, e: Event, at: int, fp: Fp, s: Standing)
    requires TrustState.Sane(w.auth) && Stands(w.auth, fp, s)
    ensures Stands(AuthAfter(g, w, e, at), fp, if Word(w, e, fp).Some? then Word(w, e, fp).value else s)
  {
    if Commands(e) {
      CommandIsDone(g, w, e, at, fp, s);
    } else {
      OthersChangeNobody(g, w, e, at);
      var a, a' := w.auth, AuthAfter(g, w, e, at);
      assert (fp in a'.trusted <==> fp in a'.trusted.Keys) && (fp in a.trusted <==> fp in a.trusted.Keys);
    }
  }

  predicate SaidAt(steps: seq<Step>, worlds: seq<World>, j: nat, fp: Fp, s: Standing)
    requires j < |steps| && j < |worlds|
  {
    Word(worlds[j], steps[j].event, fp) == Some(s)
  }

  lemma WordAt(g: Setting, steps: seq<Step>, worlds: seq<World>, k: nat, fp: Fp, s: Standing)
    requires IsRun(g, steps, worlds) && k < |steps| && Stands(worlds[k].auth, fp, s)
    ensures Stands(worlds[k + 1].auth, fp,
                   if Word(worlds[k], steps[k].event, fp).Some? then Word(worlds[k], steps[k].event, fp).value else s)
  {
    StepInto(g, steps, worlds, k + 1);
    TrustState.AlwaysSane(g, steps, worlds, k);
    WordIsDone(g, worlds[k], steps[k].event, steps[k].at, fp, s);
  }

  lemma StandsAsSomething(g: Setting, steps: seq<Step>, worlds: seq<World>, k: nat, fp: Fp) returns (s: Standing)
    requires IsRun(g, steps, worlds) && k < |worlds|
    ensures Stands(worlds[k].auth, fp, s)
  {
    TrustState.AlwaysSane(g, steps, worlds, k);
    var a := worlds[k].auth;
    s := if fp in a.trusted then IsTrusted else if fp in a.blocked then IsRefused else IsUnknown;
  }

  /** The operator's last word stands: whatever else happens in a run, a device is
      what the last command that concerned it made of it. */
  lemma {:induction false} LastWordStands(g: Setting, steps: seq<Step>, worlds: seq<World>, j: nat, k: nat, fp: Fp,
                                          s: Standing)
    requires IsRun(g, steps, worlds) && j < k < |worlds| && SaidAt(steps, worlds, j, fp, s)
    requires forall i | j < i < k :: Word(worlds[i], steps[i].event, fp) == None
    ensures Stands(worlds[k].auth, fp, s)
    decreases k
  {
    if j == k - 1 {
      var before := StandsAsSomething(g, steps, worlds, j, fp);
      WordAt(g, steps, worlds, j, fp, before);
    } else {
      LastWordStands(g, steps, worlds, j, k - 1, fp, s);
      WordAt(g, steps, worlds, k - 1, fp, s);
    }
  }

  // -------------------------------------------------------------------------
  // How a HELLO is answered

  /** The offer for a request: its challenge, the public half of the server's key,
      and the server's signature over challenge, client key and server key in a
      row; the bare challenge if there is no client key. */
  predicate OffersFor(c: Suite, serverKey: Bytes, r: Request, o: Offer) {
    && o.challenge == r.challenge
    && (r.clientX == [] ==> o.serverX == None && o.signature == None)
    && (r.clientX != [] ==>
          && o.serverX == Some(c.publicOf(r.serverPriv))
          && o.signature == Some(Signature(serverKey, r.challenge + r.clientX + c.publicOf(r.serverPriv))))
  }

  /** Every HELLO that passes the first limiter with a key is answered by what its
      device is: blocked; an offer with a fresh challenge; or a place in the queue,
      unless its address has asked for too many. */
  lemma AnsweredByStanding(c: Suite, serverKey: Bytes, a: Auth, h: Hello, draw: Fresh, now: int, allowed: bool,
                           fpAllowed: bool, s: Standing)
    requires TrustState.Sane(a) && Stands(a, c.fingerprint(h.publicKey), s)
    ensures var fp := c.fingerprint(h.publicKey);
            var (a', reply) := HandleHello(c, serverKey, a, h, draw, now, allowed, fpAllowed);
            if !allowed then a' == a && reply == RateLimited
            else if !h.clientKey.Given? then a' == a && reply == Error
            else
              match s
              case IsRefused => a' == a && reply == IsBlocked
              case IsTrusted =>
                && reply.Challenge? && fp in a'.pending && reply.offer.challenge == draw.challenge
                && a'.pending[fp].serverPriv == draw.serverPriv
                && OffersFor(c, serverKey, a'.pending[fp], reply.offer)
              case IsUnknown =>
                if fpAllowed then reply == IsPending && fp in a'.pending && !a'.pending[fp].allowOnce
                else a' == a && reply == RateLimited
  {
    TrustState.HelloKeeps(c, serverKey, a, h, draw, now, allowed, fpAllowed);
  }

  /** So in every run it is the operator's last word that decides the answer: after
      a block, the device is told so; after an approval, or trust given to a
      blocked device, it is offered a challenge; after trust is removed, or a block
      is, it waits. */
  lemma LastWordDecides(g: Setting, steps: seq<Step>, worlds: seq<World>, j: nat, k: nat, s: Standing, h: Hello,
                        draw: Fresh, now: int)
    requires IsRun(g, steps, worlds) && j < k < |worlds| && h.clientKey.Given?
    requires var fp := g.c.fingerprint(h.publicKey);
             && SaidAt(steps, worlds, j, fp, s)
             && forall i | j < i < k :: Word(worlds[i], steps[i].event, fp) == None
    ensures var reply := HandleHello(g.c, g.serverKey, worlds[k].auth, h, draw, now, true, true).1;
            match s
            case IsRefused => reply == IsBlocked
            case IsTrusted => reply.Challenge? && reply.offer.challenge == draw.challenge
            case IsUnknown => reply == IsPending
  {
    LastWordStands(g, steps, worlds, j, k, g.c.fingerprint(h.publicKey), s);
    TrustState.AlwaysSane(g, steps, worlds, k);
    AnsweredByStanding(g.c, g.serverKey, worlds[k].auth, h, draw, now, true, true, s);
  }

  /** What the operator's letting in sends: the offer for the request, as long as
      the client is there and in time. */
  lemma PushedExactly(c: Suite, serverKey: Bytes, a: Auth, fp: Fp, now: int)
    requires fp in a.pending && a.pending[fp].clientX != []
    ensures var o := Push(c, serverKey, a, fp, now);
            && (o.Some? <==> a.pending[fp].ws.Some? && now <= a.pending[fp].expires)
            && (o.Some? ==> OffersFor(c, serverKey, a.pending[fp], o.value))
  {
  }

  predicate PushesTo(a: Auth, fp: Fp, now: int) {
    fp in a.pending && a.pending[fp].ws.Some? && now <= a.pending[fp].expires
  }

  /** The challenges that a step lets out of the server are the fresh one that a
      trusted device's HELLO is answered with, and the one pushed to a device that
      the operator has just let in. */
  lemma DisclosedExactly(g: Setting, w: World, e: Event, at: int, ch: Bytes)
    requires TrustState.Sane(w.auth)
    ensures ch in Disclosed(g, w, e, at) <==>
            match e
            case HelloMsg(h, draw, _, _) =>
              var fp := g.c.fingerprint(h.publicKey);
              ch == draw.challenge && Requests.Asks(g, w, e, fp) && fp in w.auth.trusted
            case ApproveCmd(fp) => PushesTo(w.auth, fp, at) && ch == w.auth.pending[fp].challenge
            case AllowOnceCmd(fp) => PushesTo(w.auth, fp, at) && ch == w.auth.pending[fp].challenge
            case _ => false
  {
    if e.HelloMsg? {
      TrustState.HelloKeeps(g.c, g.serverKey, w.auth, e.hello, e.draw, at, e.allowed, e.fpAllowed);
    }
  }

  // -------------------------------------------------------------------------
  // What the records hold

  predicate SameDevice(t: Trusted, deviceId: string, deviceName: string, publicKey: Bytes, ip: string) {
    t.deviceId == deviceId && t.deviceName == deviceName && t.publicKey == publicKey && t.lastIp == ip
  }

  /** A record that is just made. */
  predicate NewRecord(t: Trusted, at: int) {
    && t.firstApproval == at && t.lastSeen == at
    && t.connectionCount == 0 && t.acceptCount == 1 && t.rejectCount == 0 && t.blockCount == 0
  }

  /** The statistics of a record that was there. */
  predicate KeepsStatistics(t: Trusted, t': Trusted) {
    && t'.firstApproval == t.firstApproval && t'.connectionCount == t.connectionCount
    && t'.acceptCount == t.acceptCount && t'.rejectCount == t.rejectCount && t'.blockCount == t.blockCount
  }

  /** An approval records the device as its HELLO introduced it, a trusted blocked
      device as the block recorded it; either keeps the statistics of a record
      that was there. */
  lemma TrustRecorded(g: Setting, w: World, e: Event, at: int, fp: Fp)
    requires Word(w, e, fp) == Some(IsTrusted)
    ensures var trusted' := AuthAfter(g, w, e, at).trusted;
            && fp in trusted' && trusted'[fp].lastSeen == at
            && (if fp in w.auth.trusted then KeepsStatistics(w.auth.trusted[fp], trusted'[fp])
                else NewRecord(trusted'[fp], at))
            && (e.ApproveCmd? ==>
                  var r := w.auth.pending[fp];
                  SameDevice(trusted'[fp], r.deviceId, r.deviceName, r.publicKey, r.ip))
            && (e.TrustBlockedCmd? ==>
                  var b := w.auth.blocked[fp];
                  SameDevice(trusted'[fp], b.deviceId, b.deviceName, b.publicKey, b.lastIp))
  {
  }

  /** A block records the device as its HELLO introduced it, or else as it was
      trusted. */
  lemma BlockRecorded(g: Setting, w: World, e: Event, at: int, fp: Fp)
    requires Word(w, e, fp) == Some(IsRefused)
    ensures var blocked' := AuthAfter(g, w, e, at).blocked;
            && fp in blocked'
            && blocked'[fp] ==
               if fp in w.auth.pending
               then
                 var r := w.auth.pending[fp]; Blocked(r.deviceId, r.deviceName, r.publicKey, at, r.ip, 1)
               else
                 var t := w.auth.trusted[fp]; Blocked(t.deviceId, t.deviceName, t.publicKey, at, t.lastIp, t.blockCount)
  {
  }

  lemma AnswerKeeps(g: Setting, w: World, e: Event, at: int, fp: Fp)
    requires e.ResponseMsg? && fp in w.auth.trusted
    ensures fp in AuthAfter(g, w, e, at).trusted
    ensures var t, t' := w.auth.trusted[fp], AuthAfter(g, w, e, at).trusted[fp];
            if e.fp == fp && Requests.Answers(g.c, w.auth, fp, e.signature, at)
            then
              t' == t.(lastSeen := at, lastIp := w.auth.pending[fp].ip, connectionCount := t.connectionCount + 1)
            else t' == t
  {
    Requests.AnsweredExactly(g.c, w.auth, e.fp, e.signature, at);
  }

  lemma OthersKeep(g: Setting, w: World, e: Event, at: int, fp: Fp)
    requires !e.ResponseMsg? && fp in w.auth.trusted && fp in AuthAfter(g, w, e, at).trusted && Word(w, e, fp) == None
    ensures AuthAfter(g, w, e, at).trusted[fp] == w.auth.trusted[fp]
  {
    if e.Datagram? {
      Grants.BeatKeepsRest(g, w, e, at);
    }
  }

  /** No other step changes who a record is of; only a new session counts a
      connection. */
  lemma RecordKept(g: Setting, w: World, e: Event, at: int, fp: Fp)
    requires fp in w.auth.trusted && fp in AuthAfter(g, w, e, at).trusted && Word(w, e, fp) == None
    ensures var t, t' := w.auth.trusted[fp], AuthAfter(g, w, e, at).trusted[fp];
            if e.ResponseMsg? && e.fp == fp && Requests.Answers(g.c, w.auth, fp, e.signature, at)
            then
              t' == t.(lastSeen := at, lastIp := w.auth.pending[fp].ip, connectionCount := t.connectionCount + 1)
            else t' == t
  {
    if e.ResponseMsg? {
      AnswerKeeps(g, w, e, at, fp);
    } else {
      OthersKeep(g, w, e, at, fp);
    }
  }

  /** Blocking a trusted device and then trusting it again brings back who it is,
      but not how long it has been known or how often it has connected. */
  lemma BlockedAndBack(a: Auth, fp: Fp, now: int, later: int)
    requires fp in a.trusted && fp !in a.pending && fp !in a.blocked
    ensures var back := TrustBlocked(Block(a, fp, now), fp, later);
            && back.blocked == a.blocked && fp in back.trusted
            && (forall other | other in a.trusted && other != fp ::
                  other in back.trusted && back.trusted[other] == a.trusted[other])
            && (forall other | other in back.trusted :: other in a.trusted)
            && var t := a.trusted[fp];
               SameDevice(back.trusted[fp], t.deviceId, t.deviceName, t.publicKey, t.lastIp)
               && NewRecord(back.trusted[fp], later)
  {
    assert a.blocked[fp := Block(a, fp, now).blocked[fp]] - {fp} == a.blocked;
  }

  // -------------------------------------------------------------------------
  // Connections are counted

  /** The connections counted in the device's record are those of `t`, and one for
      each session installed since `w`. */
  predicate Tallied(w: World, w': World, fp: Fp) {
    && fp in w.auth.trusted && fp in w'.auth.trusted
    && w'.auth.trusted[fp].firstApproval == w.auth.trusted[fp].firstApproval
    && w'.auth.trusted[fp].connectionCount + Grants.SessionsOf(w.installs, fp)
       == w.auth.trusted[fp].connectionCount + Grants.SessionsOf(w'.installs, fp)
  }

  lemma TallyStep(g: Setting, w: World, e: Event, at: int, fp: Fp)
    requires Enabled(g, w, e, at) && fp in w.auth.trusted && fp in AuthAfter(g, w, e, at).trusted
    requires TrustState.Sane(w.auth)
    ensures Tallied(w, Next(g, w, e, at), fp)
  {
    var w' := Next(g, w, e, at);
    Grants.InstallEffect(g, w, e, at);
    if w'.installs != w.installs {
      Grants.OneMoreSession(w.installs, w'.installs[|w.installs|], fp);
      Requests.AnsweredExactly(g.c, w.auth, e.fp, e.signature, at);
    }
    if Word(w, e, fp) == None {
      RecordKept(g, w, e, at, fp);
      if e.ResponseMsg? {
        Requests.AnsweredExactly(g.c, w.auth, e.fp, e.signature, at);
      }
    } else {
      WordIsDone(g, w, e, at, fp, IsTrusted);
      TrustRecorded(g, w, e, at, fp);
    }
  }

  lemma TallyAt(g: Setting, steps: seq<Step>, worlds: seq<World>, k: nat, fp: Fp)
    requires IsRun(g, steps, worlds) && k < |steps|
    requires fp in worlds[k].auth.trusted && fp in worlds[k + 1].auth.trusted
    ensures Tallied(worlds[k], worlds[k + 1], fp)
  {
    StepInto(g, steps, worlds, k + 1);
    TrustState.AlwaysSane(g, steps, worlds, k);
    TallyStep(g, worlds[k], steps[k].event, steps[k].at, fp);
  }

  lemma {:induction false} TalliesAdd(worlds: seq<World>, j: nat, k: nat, fp: Fp)
    requires j <= k < |worlds| && fp in worlds[j].auth.trusted
    requires forall i: nat | j <= i < k :: Tallied(worlds[i], worlds[i + 1], fp)
    ensures Tallied(worlds[j], worlds[k], fp)
    decreases k
  {
    if j < k {
      TalliesAdd(worlds, j, k - 1, fp);
      assert Tallied(worlds[k - 1], worlds[k - 1 + 1], fp);
    }
  }

  /** As long as a device stays trusted, whatever is approved again in between, its
      record keeps the time of its first approval and counts exactly the sessions
      installed for it. */
  lemma ConnectionsCounted(g: Setting, steps: seq<Step>, worlds: seq<World>, j: nat, k: nat, fp: Fp)
    requires IsRun(g, steps, worlds) && j <= k < |worlds|
    requires forall i | j <= i <= k :: fp in worlds[i].auth.trusted
    ensures worlds[k].auth.trusted[fp].firstApproval == worlds[j].auth.trusted[fp].firstApproval
    ensures worlds[k].auth.trusted[fp].connectionCount + Grants.SessionsOf(worlds[j].installs, fp)
            == worlds[j].auth.trusted[fp].connectionCount + Grants.SessionsOf(worlds[k].installs, fp)
  {
    forall i: nat | j <= i < k
      ensures Tallied(worlds[i], worlds[i + 1], fp)
    {
      TallyAt(g, steps, worlds, i, fp);
    }
    TalliesAdd(worlds, j, k, fp);
  }
}
