/** When exactly a heartbeat is accepted, in terms of what has happened before. */
module Acceptance {
  import opened Wrappers
  import opened Wire
  import opened Crypto
  import opened AuthModel
  import opened Heartbeat
  import opened StreamModel
  import opened Server
  import Grants
  import Replay
  import Sessions

  // -------------------------------------------------------------------------
  // The pinned address

  /** A session is pinned to the address of every heartbeat accepted under its key,
      and to none if there is none. */
  predicate PinKnown(accepts: seq<Accept>, s: Session) {
    match s.udpIp
    case None => forall a | a in accepts :: a.key != s.key
    case Some(ip) =>
      && (forall a | a in accepts && a.key == s.key :: a.ip == ip)
      && exists a | a in accepts :: a.key == s.key
  }

  predicate PinsKnown(w: World) {
    forall fp | fp in w.auth.sessions :: PinKnown(w.accepts, w.auth.sessions[fp])
  }

  /** A session that is not pinned has taken no nonce. */
  lemma UnpinnedIsEmpty(w: World, s: Session)
    requires PinKnown(w.accepts, s) && Replay.Remembers(w, s) && s.udpIp == None
    ensures s.usedNonces == []
  {
    Replay.NoNoncesUnder(w.accepts, s.key);
  }

  lemma RefusedAdmitsNothing(a: Auth, b: Beat, ip: string)
    requires b.name in a.sessions && AdmitBeat(a, b, ip).1.Some?
    requires a.sessions[b.name].udpIp == None ==> a.sessions[b.name].usedNonces == []
    ensures AdmitBeat(a, b, ip).0 == a
  {
  }

  lemma RefusedPinsNothing(c: Suite, a: Auth, t: Table, b: Beat, ip: string, port: nat, now: int)
    requires b.Valid() && !NonceTaken(OnBeat(c, a, t, b, ip, port, now).2)
    requires b.name in a.sessions && a.sessions[b.name].udpIp == None ==> a.sessions[b.name].usedNonces == []
    ensures var sessions' := OnBeat(c, a, t, b, ip, port, now).0.sessions;
            forall fp | fp in sessions' :: fp in a.sessions && sessions'[fp] == a.sessions[fp]
  {
    if HasSession(a, b.name, now) && AdmitBeat(a, b, ip).1.Some? {
      RefusedAdmitsNothing(a, b, ip);
    }
  }

  lemma RefusedDatagram(g: Setting, w: World, e: Event, at: int)
    requires e.Datagram? && Accepted(g, w, e, at) == [] && PinsKnown(w) && Replay.SessionsKnown(w)
    ensures var sessions' := AuthAfter(g, w, e, at).sessions;
            forall fp | fp in sessions' :: fp in w.auth.sessions && sessions'[fp] == w.auth.sessions[fp]
  {
    if e.udpAllowed && Parse(e.data).Some? {
      var b := Parse(e.data).value;
      if b.name in w.auth.sessions && w.auth.sessions[b.name].udpIp == None {
        UnpinnedIsEmpty(w, w.auth.sessions[b.name]);
      }
      RefusedPinsNothing(g.c, w.auth, w.table, b, e.ip, e.port, at);
    }
  }

  lemma TakenKeepsPins(g: Setting, w: World, a: Accept, w': World)
    requires Replay.Takes(g.c, w, a, w') && PinsKnown(w) && Replay.SessionsKnown(w) && Replay.Distinct(w)
    ensures PinsKnown(w')
  {
    forall fp | fp in w'.auth.sessions
      ensures PinKnown(w'.accepts, w'.auth.sessions[fp])
    {
      assert PinKnown(w.accepts, w.auth.sessions[fp]);
      if fp == a.beat.name {
        assert a in w'.accepts;
      } else if a.key == w.auth.sessions[fp].key {
        Replay.OneName(w, a.key, fp, a.beat.name);
      } else {
        PinOfAnother(w.accepts, a, w.auth.sessions[fp]);
      }
    }
  }

  lemma PinOfAnother(accepts: seq<Accept>, a: Accept, s: Session)
    requires PinKnown(accepts, s) && a.key != s.key
    ensures PinKnown(accepts + [a], s)
  {
    if s.udpIp.Some? {
      var x :| x in accepts && x.key == s.key;
      assert x in accepts + [a];
    }
  }

  /** A new session is not pinned, and rightly so: its key is new. */
  lemma InstallKeepsPins(g: Setting, w: World, e: Event, w': World)
    requires Grants.InstallsFollow(g, w, e, w') && w'.installs != w.installs && w'.accepts == w.accepts
    requires PinsKnown(w) && Replay.AcceptsKnown(g.c, w) && Replay.Distinct(w')
    ensures PinsKnown(w')
  {
    var i := w'.installs[|w.installs|];
    forall a | a in w.accepts
      ensures a.key != i.key
    {
      assert Replay.Passed(g.c, w, a);
      Replay.NewKeyIsNew(w, i, w', a.beat.name);
    }
  }

  lemma PinsStep(g: Setting, w: World, s: Step, w': World)
    requires Goes(g, w, s, w') && PinsKnown(w) && Replay.BothKnown(g, w) && Replay.Distinct(w) && Replay.Distinct(w')
    ensures PinsKnown(w')
  {
    var e, at := s.event, s.at;
    if e.Datagram? {
      if Accepted(g, w, e, at) == [] {
        RefusedDatagram(g, w, e, at);
      } else {
        Replay.TakenEffect(g, w, e, at, w');
        TakenKeepsPins(g, w, Accepted(g, w, e, at)[0], w');
      }
    } else if e.ResponseMsg? {
      Grants.InstallEffect(g, w, e, at);
      if w'.installs != w.installs {
        InstallKeepsPins(g, w, e, w');
      } else {
        OthersKeepPins(g, w, e, at);
      }
    } else {
      Grants.OtherSessions(g, w, e, at);
    }
  }

  lemma OthersKeepPins(g: Setting, w: World, e: Event, at: int)
    requires e.ResponseMsg? && Installed(g, w, e, at) == [] && PinsKnown(w)
    ensures PinsKnown(Next(g, w, e, at))
  {
  }

  lemma PinsNext(g: Setting, steps: seq<Step>, worlds: seq<World>, k: nat)
    requires IsRun(g, steps, worlds) && 0 < k < |worlds| && PinsKnown(worlds[k - 1])
    ensures PinsKnown(worlds[k])
  {
    StepInto(g, steps, worlds, k);
    Replay.AlwaysKnown(g, steps, worlds, k - 1);
    Replay.AlwaysDistinct(g, steps, worlds, k - 1);
    Replay.AlwaysDistinct(g, steps, worlds, k);
    PinsStep(g, worlds[k - 1], steps[k - 1], worlds[k]);
  }

  lemma {:induction false} AlwaysPinned(g: Setting, steps: seq<Step>, worlds: seq<World>, k: nat)
    requires IsRun(g, steps, worlds) && k < |worlds|
    ensures PinsKnown(worlds[k])
  {
    if k > 0 {
      AlwaysPinned(g, steps, worlds, k - 1);
      PinsNext(g, steps, worlds, k);
    }
  }

  // -------------------------------------------------------------------------
  // The verdict

  /** The verdict on a well-formed heartbeat is the first of these that applies. */
  function FirstReason(c: Suite, a: Auth, t: Table, b: Beat, ip: string, now: int): Verdict
    requires b.Valid()
  {
    ValidNameIsAscii(b.name);
    if b.name !in a.sessions || now > a.sessions[b.name].expiresAt then NoSession
    else
      var s := a.sessions[b.name];
      if now - b.Millis() < -30_000 || now - b.Millis() > 30_000 then BadTime
      else if c.hmac(s.key, EncodeText(b.name) + b.timestamp + b.nonce) != b.tag then BadTag
      else if s.udpIp.Some? && s.udpIp.value != ip then WrongIp
      else if b.nonce in s.usedNonces then Replayed
      else if b.name !in t && |t| >= 16 then TableFull
      else Streaming
  }

  lemma AdmitVerdict(a: Auth, b: Beat, ip: string)
    requires b.name in a.sessions
    ensures var s := a.sessions[b.name];
            AdmitBeat(a, b, ip).1 == if s.udpIp.Some? && s.udpIp.value != ip then Some(WrongIp)
                                     else if b.nonce in s.usedNonces then Some(Replayed) else None
  {
  }

  lemma BeatVerdict(c: Suite, a: Auth, t: Table, b: Beat, ip: string, port: nat, now: int)
    requires b.Valid()
    ensures OnBeat(c, a, t, b, ip, port, now).2 == FirstReason(c, a, t, b, ip, now)
  {
    if HasSession(a, b.name, now) && CheckBeat(c, a.sessions[b.name], b, now) == None {
      assert Touch(a, b.name, now) == a;
      AdmitVerdict(a, b, ip);
    }
  }

  /** For any bytes at all, the verdict is the first reason that applies, in the
      order of the source's checks. */
  lemma VerdictExactly(c: Suite, a: Auth, t: Table, data: Bytes, ip: string, port: nat, now: int, allowed: bool)
    ensures var v := OnHeartbeat(c, a, t, data, ip, port, now, allowed).2;
            && (v == RateDropped <==> !allowed)
            && (v == BadPacket <==> allowed && !WellFormed(data))
            && (allowed && WellFormed(data) ==>
                  Parse(data).Some? && v == FirstReason(c, a, t, Parse(data).value, ip, now))
  {
    ParsesExactly(data);
    if allowed && Parse(data).Some? {
      BeatVerdict(c, a, t, Parse(data).value, ip, port, now);
    }
  }

  // -------------------------------------------------------------------------
  // Acceptance

  /** The heartbeat is in time to half a minute, and its tag is right under the
      key; every other one accepted under the key came from the same address; and
      its nonce is none of the last 512 taken under the key. */
  predicate Fitting(c: Suite, w: World, key: Bytes, b: Beat, ip: string, at: int)
    requires b.Valid()
  {
    ValidNameIsAscii(b.name);
    && b.Millis() - 30_000 <= at <= b.Millis() + 30_000
    && c.hmac(key, EncodeText(b.name) + b.timestamp + b.nonce) == b.tag
    && (forall a | a in w.accepts && a.key == key :: a.ip == ip)
    && b.nonce !in Replay.LastFew(Replay.NoncesUnder(w.accepts, key))
  }

  lemma FitsExactly(c: Suite, w: World, b: Beat, ip: string, at: int)
    requires b.Valid() && Replay.SessionsKnown(w) && PinsKnown(w)
    ensures b.name in w.auth.sessions ==>
              var s := w.auth.sessions[b.name];
              Fitting(c, w, s.key, b, ip, at) <==>
              && WithinSkew(at, b) && TagVerifies(c, s.key, b) && (s.udpIp.None? || s.udpIp == Some(ip))
              && b.nonce !in s.usedNonces
  {
    if b.name in w.auth.sessions {
      assert PinKnown(w.accepts, w.auth.sessions[b.name]);
    }
  }

  lemma TakenByFitting(g: Setting, w: World, b: Beat, trailing: Bytes, ip: string, port: nat, at: int, udpAllowed: bool)
    requires b.Valid() && Replay.SessionsKnown(w) && PinsKnown(w)
    ensures NonceTaken(OnHeartbeat(g.c, w.auth, w.table, Write(b) + trailing, ip, port, at, udpAllowed).2) <==>
            && udpAllowed && HasSession(w.auth, b.name, at)
            && Fitting(g.c, w, w.auth.sessions[b.name].key, b, ip, at)
  {
    ParseWrite(b, trailing);
    Replay.TakenExactly(g.c, w.auth, w.table, b, ip, port, at);
    FitsExactly(g.c, w, b, ip, at);
  }

  /** When exactly a heartbeat is accepted, at any point of any run and whatever
      follows it in the datagram: the limiter lets it through; its device has a
      session, installed no more than half an hour ago and not ended since; and
      the heartbeat fits what was accepted under that session's key. So after 512
      others an old heartbeat that is still in time is accepted again. */
  lemma AcceptedExactlyWhen(g: Setting, steps: seq<Step>, worlds: seq<World>, k: nat, b: Beat, trailing: Bytes,
                            ip: string, port: nat, at: int, udpAllowed: bool)
    requires IsRun(g, steps, worlds) && k < |worlds| && b.Valid()
    ensures var w := worlds[k];
            NonceTaken(OnHeartbeat(g.c, w.auth, w.table, Write(b) + trailing, ip, port, at, udpAllowed).2) <==>
            && udpAllowed
            && (exists j: nat :: Sessions.InSince(g, steps, worlds, j, k, b.name) && at <= steps[j].at + 1_800_000)
            && b.name in w.auth.sessions && Fitting(g.c, w, w.auth.sessions[b.name].key, b, ip, at)
  {
    var w := worlds[k];
    Sessions.HeardExactly(g, steps, worlds, k, b.name, at);
    Replay.AlwaysKnown(g, steps, worlds, k);
    AlwaysPinned(g, steps, worlds, k);
    TakenByFitting(g, w, b, trailing, ip, port, at, udpAllowed);
  }
}
