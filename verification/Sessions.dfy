/** The life of a session: what installs it, what ends it, and for how long it is
    heard. Stated over the steps of a run, in plain numbers and fields. */
module Sessions {
  import opened Crypto
  import opened AuthModel
  import opened Heartbeat
  import opened StreamModel
  import opened Server
  import Grants
  import Requests

  // -------------------------------------------------------------------------
  // One step

  /** All that ends a session, beside a new one in its place: the operator's word,
      its age, and, if it was for one use, its socket or its place in the table. */
  predicate Ends(w: World, e: Event, at: int, fp: Fp)
    requires fp in w.auth.sessions
  {
    var s := w.auth.sessions[fp];
    match e
    case DisconnectCmd(name) => name == fp
    case RemoveTrustCmd(name) => name == fp
    case BlockCmd(name) => name == fp && (fp in w.auth.pending || fp in w.auth.trusted)
    case SocketClosed(name) => name == fp && s.singleUse
    case CleanupTick => s.singleUse && fp in w.table && at - w.table[fp].lastHb > 30_000
    case BroadcastRound(turns) =>
      s.singleUse && fp in w.table && fp in turns && turns[fp] == Failed && w.table[fp].sendErrors >= 4
    case Collection => at > s.expiresAt
    case Datagram(data, _, _, udpAllowed) =>
      at > s.expiresAt && udpAllowed && Parse(data).Some? && Parse(data).value.name == fp
    case _ => false
  }

  lemma BeatEnds(c: Suite, a: Auth, t: Table, b: Beat, ip: string, port: nat, now: int, fp: Fp)
    requires b.Valid() && fp in a.sessions
    ensures fp in OnBeat(c, a, t, b, ip, port, now).0.sessions <==> !(b.name == fp && now > a.sessions[fp].expiresAt)
  {
    BeatEffect(c, a, t, b, ip, port, now);
    if HasSession(a, b.name, now) {
      AdmitFrame(a, b, ip);
    }
  }

  lemma BeatEndsExactly(g: Setting, w: World, e: Event, at: int, fp: Fp)
    requires fp in w.auth.sessions && e.Datagram?
    ensures fp in AuthAfter(g, w, e, at).sessions <==> !Ends(w, e, at, fp)
  {
    if e.udpAllowed && Parse(e.data).Some? {
      BeatEnds(g.c, w.auth, w.table, Parse(e.data).value, e.ip, e.port, at, fp);
    }
  }

  lemma DepartureEnds(g: Setting, w: World, e: Event, at: int, fp: Fp)
    requires fp in w.auth.sessions && (e.CleanupTick? || e.BroadcastRound?)
    ensures fp in AuthAfter(g, w, e, at).sessions <==> !Ends(w, e, at, fp)
  {
  }

  lemma HelloEndsNone(g: Setting, w: World, e: Event, at: int)
    requires e.HelloMsg?
    ensures AuthAfter(g, w, e, at).sessions == w.auth.sessions
  {
  }

  lemma OtherEndsExactly(g: Setting, w: World, e: Event, at: int, fp: Fp)
    requires fp in w.auth.sessions && !e.ResponseMsg? && !e.Datagram?
    ensures fp in AuthAfter(g, w, e, at).sessions <==> !Ends(w, e, at, fp)
  {
    match e
    case CleanupTick => DepartureEnds(g, w, e, at, fp);
    case BroadcastRound(_) => DepartureEnds(g, w, e, at, fp);
    case HelloMsg(_, _, _, _) => HelloEndsNone(g, w, e, at);
    case _ =>
  }

  /** A session is still there after a step that installs none if and only if the
      step does not end it; and all that can have changed are its pinned address
      and its nonces. */
  lemma EndsExactly(g: Setting, w: World, e: Event, at: int, fp: Fp)
    requires fp in w.auth.sessions && !e.ResponseMsg?
    ensures var sessions' := AuthAfter(g, w, e, at).sessions;
            && (fp in sessions' <==> !Ends(w, e, at, fp))
            && (fp in sessions' ==> Evolves(w.auth.sessions[fp], sessions'[fp]))
  {
    if e.Datagram? {
      Grants.BeatKeepsRest(g, w, e, at);
      BeatEndsExactly(g, w, e, at, fp);
    } else {
      Grants.OtherSessions(g, w, e, at);
      OtherEndsExactly(g, w, e, at, fp);
    }
  }

  lemma NoneFromNothing(g: Setting, w: World, e: Event, at: int, fp: Fp)
    requires fp !in w.auth.sessions && !e.ResponseMsg?
    ensures fp !in AuthAfter(g, w, e, at).sessions
  {
    if e.Datagram? {
      Grants.BeatKeepsRest(g, w, e, at);
    } else {
      Grants.OtherSessions(g, w, e, at);
    }
  }

  /** What a cleanup tick or a broadcast round does to the sessions: a name that
      left the table has no single-use session any more, and every other session
      is as it was. */
  lemma DeparturesExactly(g: Setting, w: World, e: Event, at: int)
    requires e.CleanupTick? || e.BroadcastRound?
    ensures var w' := Next(g, w, e, at);
            && (forall fp | fp in w.table && fp !in w'.table && fp in w'.auth.sessions ::
                  !w'.auth.sessions[fp].singleUse)
            && (forall fp | fp in w'.auth.sessions :: fp in w.auth.sessions)
            && (forall fp | fp in w.auth.sessions
                            && !(w.auth.sessions[fp].singleUse && fp in w.table && fp !in w'.table) ::
                  fp in w'.auth.sessions && w'.auth.sessions[fp] == w.auth.sessions[fp])
            && w'.auth == w.auth.(sessions := w'.auth.sessions)
  {
  }

  // -------------------------------------------------------------------------
  // Runs

  predicate InstallsAt(g: Setting, steps: seq<Step>, worlds: seq<World>, i: nat, fp: Fp)
    requires i < |steps| && i < |worlds|
  {
    && steps[i].event.ResponseMsg? && steps[i].event.fp == fp
    && Requests.Answers(g.c, worlds[i].auth, fp, steps[i].event.signature, steps[i].at)
  }

  predicate EndsAt(steps: seq<Step>, worlds: seq<World>, i: nat, fp: Fp)
    requires i < |steps| && i < |worlds| && fp in worlds[i].auth.sessions
  {
    Ends(worlds[i], steps[i].event, steps[i].at, fp)
  }

  /** The device has had its session since step `j`, which installed it. */
  predicate InSince(g: Setting, steps: seq<Step>, worlds: seq<World>, j: nat, k: nat, fp: Fp)
    requires |worlds| == |steps| + 1
  {
    && j < k < |worlds| && InstallsAt(g, steps, worlds, j, fp)
    && forall i | j < i < k ::
         && fp in worlds[i].auth.sessions && !EndsAt(steps, worlds, i, fp) && !InstallsAt(g, steps, worlds, i, fp)
  }

  /** The session that comes of a request answered at `at`. */
  predicate MadeOf(c: Suite, r: Request, at: int, s: Session) {
    && c.exchange(r.serverPriv, r.clientX).Some?
    && s.key == c.derive(c.exchange(r.serverPriv, r.clientX).value, r.challenge) && s.expiresAt == at + 1_800_000
    && s.deviceName == r.deviceName && s.ip == r.ip && s.singleUse == r.allowOnce && s.ws == r.ws
  }

  /** What step `k` does to a device's session. */
  predicate Progresses(g: Setting, steps: seq<Step>, worlds: seq<World>, k: nat, fp: Fp)
    requires |worlds| == |steps| + 1 && k < |steps|
  {
    var before, after := worlds[k].auth.sessions, worlds[k + 1].auth.sessions;
    && (fp in after <==> InstallsAt(g, steps, worlds, k, fp) || (fp in before && !EndsAt(steps, worlds, k, fp)))
    && (InstallsAt(g, steps, worlds, k, fp) ==> MadeOf(g.c, worlds[k].auth.pending[fp], steps[k].at, after[fp]))
    && (fp in after && !InstallsAt(g, steps, worlds, k, fp) ==> Evolves(before[fp], after[fp]))
  }

  lemma StepProgresses(g: Setting, steps: seq<Step>, worlds: seq<World>, k: nat, fp: Fp)
    requires IsRun(g, steps, worlds) && k < |steps|
    ensures Progresses(g, steps, worlds, k, fp)
  {
    var w, s := worlds[k], steps[k];
    StepInto(g, steps, worlds, k + 1);
    if s.event.ResponseMsg? {
      Requests.AnsweredExactly(g.c, w.auth, s.event.fp, s.event.signature, s.at);
    } else if fp in w.auth.sessions {
      EndsExactly(g, w, s.event, s.at, fp);
    } else {
      NoneFromNothing(g, w, s.event, s.at, fp);
    }
  }

  predicate Progress(g: Setting, steps: seq<Step>, worlds: seq<World>, fp: Fp) {
    && |worlds| == |steps| + 1 && fp !in worlds[0].auth.sessions
    && forall k | 0 <= k < |steps| :: Progresses(g, steps, worlds, k, fp)
  }

  lemma RunProgresses(g: Setting, steps: seq<Step>, worlds: seq<World>, fp: Fp)
    requires IsRun(g, steps, worlds)
    ensures Progress(g, steps, worlds, fp)
  {
    forall k | 0 <= k < |steps|
      ensures Progresses(g, steps, worlds, k, fp)
    {
      StepProgresses(g, steps, worlds, k, fp);
    }
  }

  lemma {:induction false} Trace(g: Setting, steps: seq<Step>, worlds: seq<World>, k: nat, fp: Fp) returns (j: nat)
    requires Progress(g, steps, worlds, fp) && k < |worlds| && fp in worlds[k].auth.sessions
    ensures InSince(g, steps, worlds, j, k, fp)
    ensures MadeOf(g.c, worlds[j].auth.pending[fp], steps[j].at, worlds[k].auth.sessions[fp])
  {
    j := 0;
    if k > 0 {
      assert Progresses(g, steps, worlds, k - 1, fp);
      if InstallsAt(g, steps, worlds, k - 1, fp) {
        j := k - 1;
      } else {
        j := Trace(g, steps, worlds, k - 1, fp);
      }
    }
  }

  /** There is only one such step. */
  lemma OneInstall(g: Setting, steps: seq<Step>, worlds: seq<World>, i: nat, j: nat, k: nat, fp: Fp)
    requires |worlds| == |steps| + 1 && InSince(g, steps, worlds, i, k, fp) && InSince(g, steps, worlds, j, k, fp)
    ensures i == j
  {
  }

  lemma StillIn(g: Setting, steps: seq<Step>, worlds: seq<World>, j: nat, k: nat, fp: Fp)
    requires Progress(g, steps, worlds, fp) && InSince(g, steps, worlds, j, k, fp)
    ensures fp in worlds[k].auth.sessions
  {
    assert Progresses(g, steps, worlds, k - 1, fp);
  }

  /** A device's session at any point of any run is the one made of the request
      that it last answered: key, device name, address, socket, and whether it is
      for one use. */
  lemma SessionKnown(g: Setting, steps: seq<Step>, worlds: seq<World>, j: nat, k: nat, fp: Fp)
    requires IsRun(g, steps, worlds) && InSince(g, steps, worlds, j, k, fp)
    ensures fp in worlds[k].auth.sessions
    ensures MadeOf(g.c, worlds[j].auth.pending[fp], steps[j].at, worlds[k].auth.sessions[fp])
  {
    RunProgresses(g, steps, worlds, fp);
    StillIn(g, steps, worlds, j, k, fp);
    var i := Trace(g, steps, worlds, k, fp);
    OneInstall(g, steps, worlds, i, j, k, fp);
  }

  /** In every run a device is heard at time `t` if and only if some answer of its
      installed a session no more than half an hour before, and nothing that ends
      one has come since. */
  lemma HeardExactly(g: Setting, steps: seq<Step>, worlds: seq<World>, k: nat, fp: Fp, t: int)
    requires IsRun(g, steps, worlds) && k < |worlds|
    ensures HasSession(worlds[k].auth, fp, t) <==>
            exists j: nat :: InSince(g, steps, worlds, j, k, fp) && t <= steps[j].at + 1_800_000
  {
    RunProgresses(g, steps, worlds, fp);
    if fp in worlds[k].auth.sessions {
      var j := Trace(g, steps, worlds, k, fp);
      assert HasSession(worlds[k].auth, fp, t) <==> t <= steps[j].at + 1_800_000;
      forall i: nat | InSince(g, steps, worlds, i, k, fp)
        ensures i == j
      {
        OneInstall(g, steps, worlds, i, j, k, fp);
      }
    } else {
      forall j: nat | InSince(g, steps, worlds, j, k, fp)
        ensures false
      {
        StillIn(g, steps, worlds, j, k, fp);
      }
    }
  }
}
