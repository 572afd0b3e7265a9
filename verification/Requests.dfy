/** The life of a request: what opens it, what it holds, for how long it can be
    answered, and what ends it. Stated over the steps of a run, in plain numbers
    and fields. */
module Requests {
  import opened Wrappers
  import opened Crypto
  import opened AuthModel
  import opened Server
  import Grants
  import TrustState

  // -------------------------------------------------------------------------
  // The answer that counts

  /** The device's own signature, in time, over the challenge, its key and the
      server's key in a row, and the keys are usable. */
  predicate Answers(c: Suite, a: Auth, fp: Fp, signature: Option<Signature>, now: int) {
    && fp in a.pending
    && var r := a.pending[fp];
       && now <= r.expires && |r.publicKey| == 32
       && signature == Some(Signature(r.publicKey, r.challenge + r.clientX + c.publicOf(r.serverPriv)))
       && c.exchange(r.serverPriv, r.clientX).Some?
  }

  /** An answer makes a session if and only if it is the one that counts; the
      session is the request's, for half an hour. A late one costs the request, a
      wrong one costs nothing. */
  lemma AnsweredExactly(c: Suite, a: Auth, fp: Fp, signature: Option<Signature>, now: int)
    ensures var (a', reply) := VerifyChallenge(c, a, fp, signature, now);
            && reply == (if Answers(c, a, fp, signature, now) then Authenticated else Error)
            && (reply == Authenticated ==>
                  var r := a.pending[fp];
                  && now <= r.expires && fp !in a'.pending
                  && a'.sessions == a.sessions[fp :=
                       Session(c.derive(c.exchange(r.serverPriv, r.clientX).value, r.challenge), now + 1_800_000,
                               r.deviceName, r.ip, None, r.allowOnce, r.ws, [])])
            && (reply == Error && fp in a.pending && now > a.pending[fp].expires ==> a' == DropPending(a, fp))
            && (reply == Error && (fp in a.pending ==> now <= a.pending[fp].expires) ==> a' == a)
            && fp !in DropPending(a, fp).pending
  {
  }

  // -------------------------------------------------------------------------
  // One step

  /** The device says HELLO with a key and is let in: it is not blocked, and it is
      trusted or its address has not asked for too many names. */
  predicate Asks(g: Setting, w: World, e: Event, fp: Fp) {
    && e.HelloMsg? && g.c.fingerprint(e.hello.publicKey) == fp && e.allowed && e.hello.clientKey.Given?
    && fp !in w.auth.blocked && (fp in w.auth.trusted || e.fpAllowed)
  }

  /** A trusted device that still has time keeps its request. */
  predicate Refreshes(g: Setting, w: World, e: Event, at: int, fp: Fp) {
    Asks(g, w, e, fp) && fp in w.auth.trusted && fp in w.auth.pending && at <= w.auth.pending[fp].expires
  }

  predicate Opens(g: Setting, w: World, e: Event, at: int, fp: Fp) {
    Asks(g, w, e, fp) && !Refreshes(g, w, e, at, fp)
  }

  /** An unknown device finds a hundred others waiting, and this one at the head. */
  predicate Evicts(g: Setting, w: World, e: Event, fp: Fp) {
    && e.HelloMsg? && Asks(g, w, e, g.c.fingerprint(e.hello.publicKey))
    && g.c.fingerprint(e.hello.publicKey) !in w.auth.trusted
    && |w.auth.pending| >= 100 && w.auth.order != [] && w.auth.order[0] == fp
  }

  /** All that ends a request. */
  predicate Closes(g: Setting, w: World, e: Event, at: int, fp: Fp)
    requires fp in w.auth.pending
  {
    match e
    case ResponseMsg(name, signature) =>
      name == fp && (at > w.auth.pending[fp].expires || Answers(g.c, w.auth, fp, signature, at))
    case RejectCmd(name) => name == fp
    case BlockCmd(name) => name == fp
    case Collection => at > w.auth.pending[fp].expires
    case HelloMsg(_, _, _, _) => Evicts(g, w, e, fp)
    case _ => false
  }

  lemma HelloOpensExactly(g: Setting, w: World, e: Event, at: int, fp: Fp)
    requires e.HelloMsg? && Covered(w.auth)
    ensures var pending' := AuthAfter(g, w, e, at).pending;
            && (fp in pending' <==> Asks(g, w, e, fp) || (fp in w.auth.pending && !Evicts(g, w, e, fp)))
            && (fp in pending' && !Asks(g, w, e, fp) ==> pending'[fp] == w.auth.pending[fp])
  {
    if |w.auth.pending| >= MAX_PENDING {
      FullQueueHasHead(w.auth);
    }
    var name := g.c.fingerprint(e.hello.publicKey);
    if Asks(g, w, e, name) {
      if name in w.auth.trusted {
        assert !Evicts(g, w, e, fp);
      } else {
        assert Evicts(g, w, e, fp) <==> |w.auth.pending| >= 100 && w.auth.order[0] == fp;
      }
    } else {
      assert AuthAfter(g, w, e, at) == w.auth;
    }
  }

  lemma ClosesExactly(g: Setting, w: World, e: Event, at: int, fp: Fp)
    requires !e.HelloMsg? && !e.ResponseMsg? && !e.Datagram?
    ensures fp in AuthAfter(g, w, e, at).pending <==> fp in w.auth.pending && !Closes(g, w, e, at, fp)
  {
  }

  /** A device has a request after a step if and only if the step opens one, or
      it had one and the step does not end it. */
  lemma PendingExactly(g: Setting, w: World, e: Event, at: int, fp: Fp)
    requires Covered(w.auth)
    ensures var pending' := AuthAfter(g, w, e, at).pending;
            fp in pending' <==> Opens(g, w, e, at, fp) || (fp in w.auth.pending && !Closes(g, w, e, at, fp))
  {
    match e
    case HelloMsg(_, _, _, _) => HelloOpensExactly(g, w, e, at, fp);
    case ResponseMsg(name, signature) => AnsweredExactly(g.c, w.auth, name, signature, at);
    case Datagram(_, _, _, _) => Grants.BeatKeepsRest(g, w, e, at);
    case _ => ClosesExactly(g, w, e, at, fp);
  }

  /** What a new request holds: what the HELLO said, where it came from, and the
      fresh draw; it can be answered for a minute. */
  lemma OpenedWith(g: Setting, w: World, e: Event, at: int, fp: Fp)
    requires Opens(g, w, e, at, fp) && Covered(w.auth)
    ensures var pending', h := AuthAfter(g, w, e, at).pending, e.hello;
            && fp in pending'
            && pending'[fp] == Request(h.deviceId, h.deviceName, h.publicKey, h.ip, at, e.draw.challenge, at + 60_000,
                                       e.draw.serverPriv, h.clientKey.bytes, false, h.ws)
  {
    HelloOpensExactly(g, w, e, at, fp);
  }

  /** A refresh changes only the draw and the deadline, and takes the new key and
      socket if there are any. */
  lemma RefreshedWith(g: Setting, w: World, e: Event, at: int, fp: Fp)
    requires Refreshes(g, w, e, at, fp)
    ensures var pending', h := AuthAfter(g, w, e, at).pending, e.hello;
            && fp in pending'
            && pending'[fp] == w.auth.pending[fp].(challenge := e.draw.challenge, serverPriv := e.draw.serverPriv,
                 expires := at + 60_000, clientX := pending'[fp].clientX, ws := pending'[fp].ws)
            && pending'[fp].clientX
               == (if h.clientKey.bytes == [] then w.auth.pending[fp].clientX else h.clientKey.bytes)
            && pending'[fp].ws == (if h.ws == None then w.auth.pending[fp].ws else h.ws)
  {
  }

  lemma SignKept(g: Setting, w: World, e: Event, at: int, fp: Fp)
    requires fp in w.auth.pending && (e.PingMsg? || e.AllowOnceCmd?)
    ensures fp in AuthAfter(g, w, e, at).pending
    ensures var r, r' := w.auth.pending[fp], AuthAfter(g, w, e, at).pending[fp];
            r' == r.(expires := if e == PingMsg(fp) then at + 60_000 else r.expires,
                     allowOnce := e == AllowOnceCmd(fp) || r.allowOnce)
  {
  }

  lemma NothingChanged(g: Setting, w: World, e: Event, at: int, fp: Fp)
    requires fp in w.auth.pending && fp in AuthAfter(g, w, e, at).pending
    requires !e.HelloMsg? && !e.PingMsg? && !e.AllowOnceCmd?
    ensures AuthAfter(g, w, e, at).pending[fp] == w.auth.pending[fp]
  {
    Grants.OtherPending(g, w, e, at);
  }

  /** Anything else leaves it as it is, except that a PING gives it another minute
      and the operator may allow the device once. */
  lemma OtherwiseKept(g: Setting, w: World, e: Event, at: int, fp: Fp)
    requires Covered(w.auth)
    requires fp in w.auth.pending && fp in AuthAfter(g, w, e, at).pending && !Asks(g, w, e, fp)
    ensures var r, r' := w.auth.pending[fp], AuthAfter(g, w, e, at).pending[fp];
            r' == r.(expires := if e == PingMsg(fp) then at + 60_000 else r.expires,
                     allowOnce := e == AllowOnceCmd(fp) || r.allowOnce)
  {
    match e
    case HelloMsg(_, _, _, _) => HelloOpensExactly(g, w, e, at, fp);
    case PingMsg(_) => SignKept(g, w, e, at, fp);
    case AllowOnceCmd(_) => SignKept(g, w, e, at, fp);
    case _ => NothingChanged(g, w, e, at, fp);
  }

  // -------------------------------------------------------------------------
  // Runs

  predicate AsksAt(g: Setting, steps: seq<Step>, worlds: seq<World>, i: nat, fp: Fp)
    requires i < |steps| && i < |worlds|
  {
    Asks(g, worlds[i], steps[i].event, fp)
  }

  predicate OpensAt(g: Setting, steps: seq<Step>, worlds: seq<World>, i: nat, fp: Fp)
    requires i < |steps| && i < |worlds|
  {
    Opens(g, worlds[i], steps[i].event, steps[i].at, fp)
  }

  predicate ClosesAt(g: Setting, steps: seq<Step>, worlds: seq<World>, i: nat, fp: Fp)
    requires i < |steps| && i < |worlds| && fp in worlds[i].auth.pending
  {
    Closes(g, worlds[i], steps[i].event, steps[i].at, fp)
  }

  /** The device has a request since step `j`, which opened it. */
  predicate OpenSince(g: Setting, steps: seq<Step>, worlds: seq<World>, j: nat, k: nat, fp: Fp)
    requires |worlds| == |steps| + 1
  {
    && j < k < |worlds| && OpensAt(g, steps, worlds, j, fp)
    && forall i | j < i < k ::
         && fp in worlds[i].auth.pending && !ClosesAt(g, steps, worlds, i, fp) && !OpensAt(g, steps, worlds, i, fp)
  }

  /** Its last HELLO that was let in is step `m`. */
  predicate LastAsked(g: Setting, steps: seq<Step>, worlds: seq<World>, m: nat, k: nat, fp: Fp)
    requires |worlds| == |steps| + 1
  {
    && m < k < |worlds| && AsksAt(g, steps, worlds, m, fp)
    && forall i | m < i < k :: !AsksAt(g, steps, worlds, i, fp)
  }

  /** A sign that the device is there: a HELLO that is let in, or a PING. */
  predicate Signals(g: Setting, steps: seq<Step>, worlds: seq<World>, i: nat, fp: Fp)
    requires i < |steps| && i < |worlds|
  {
    AsksAt(g, steps, worlds, i, fp) || steps[i].event == PingMsg(fp)
  }

  predicate LastSignal(g: Setting, steps: seq<Step>, worlds: seq<World>, n: nat, k: nat, fp: Fp)
    requires |worlds| == |steps| + 1
  {
    && n < k < |worlds| && Signals(g, steps, worlds, n, fp)
    && forall i | n < i < k :: !Signals(g, steps, worlds, i, fp)
  }

  /** The operator has allowed the device once in between. */
  predicate AllowedIn(steps: seq<Step>, j: nat, k: nat, fp: Fp)
    requires k <= |steps|
  {
    exists i | j < i < k :: steps[i].event == AllowOnceCmd(fp)
  }

  predicate Introduced(r: Request, h: Hello) {
    r.deviceId == h.deviceId && r.deviceName == h.deviceName && r.publicKey == h.publicKey && r.ip == h.ip
  }

  /** What a HELLO that is let in leaves in the request: the fresh draw, and its
      key and socket if it has any. */
  predicate Drawn(r: Request, e: Event)
    requires e.HelloMsg? && e.hello.clientKey.Given?
  {
    && r.challenge == e.draw.challenge && r.serverPriv == e.draw.serverPriv
    && (e.hello.clientKey.bytes != [] ==> r.clientX == e.hello.clientKey.bytes)
    && (e.hello.ws.Some? ==> r.ws == e.hello.ws)
  }

  /** What is known of a request from the steps since it was opened. */
  predicate Told(g: Setting, steps: seq<Step>, worlds: seq<World>, j: nat, m: nat, n: nat, k: nat, fp: Fp, r: Request)
    requires |worlds| == |steps| + 1
  {
    && OpenSince(g, steps, worlds, j, k, fp) && j <= m <= n
    && LastAsked(g, steps, worlds, m, k, fp) && LastSignal(g, steps, worlds, n, k, fp)
    && Introduced(r, steps[j].event.hello) && r.timestamp == steps[j].at
    && Drawn(r, steps[m].event) && r.expires == steps[n].at + 60_000
    && (r.allowOnce <==> AllowedIn(steps, j, k, fp))
  }

  lemma OneMoreAllowed(steps: seq<Step>, j: nat, k: nat, fp: Fp)
    requires j < k < |steps|
    ensures AllowedIn(steps, j, k + 1, fp) <==> AllowedIn(steps, j, k, fp) || steps[k].event == AllowOnceCmd(fp)
  {
  }

  /** The request that a HELLO opens. */
  predicate Opened(steps: seq<Step>, k: nat, r: Request)
    requires k < |steps|
  {
    && steps[k].event.HelloMsg? && steps[k].event.hello.clientKey.Given?
    && Introduced(r, steps[k].event.hello) && r.timestamp == steps[k].at && Drawn(r, steps[k].event)
    && r.expires == steps[k].at + 60_000 && !r.allowOnce
  }

  /** How a step that neither opens nor ends a request changes it. */
  predicate Passes(g: Setting, steps: seq<Step>, worlds: seq<World>, k: nat, fp: Fp, r: Request, r': Request)
    requires k < |steps| && k < |worlds|
  {
    && r'.deviceId == r.deviceId && r'.deviceName == r.deviceName && r'.publicKey == r.publicKey && r'.ip == r.ip
    && r'.timestamp == r.timestamp
    && (if AsksAt(g, steps, worlds, k, fp)
        then Drawn(r', steps[k].event)
        else r'.challenge == r.challenge && r'.serverPriv == r.serverPriv && r'.clientX == r.clientX && r'.ws == r.ws)
    && r'.expires == (if Signals(g, steps, worlds, k, fp) then steps[k].at + 60_000 else r.expires)
    && (r'.allowOnce <==> r.allowOnce || steps[k].event == AllowOnceCmd(fp))
  }

  /** What step `k` does to a device's request. */
  predicate Progresses(g: Setting, steps: seq<Step>, worlds: seq<World>, k: nat, fp: Fp)
    requires |worlds| == |steps| + 1 && k < |steps|
  {
    var before, after := worlds[k].auth.pending, worlds[k + 1].auth.pending;
    && (fp in after <==> OpensAt(g, steps, worlds, k, fp) || (fp in before && !ClosesAt(g, steps, worlds, k, fp)))
    && (OpensAt(g, steps, worlds, k, fp) ==> AsksAt(g, steps, worlds, k, fp) && Opened(steps, k, after[fp]))
    && (fp in after && !OpensAt(g, steps, worlds, k, fp) ==> Passes(g, steps, worlds, k, fp, before[fp], after[fp]))
  }

  lemma StepProgresses(g: Setting, steps: seq<Step>, worlds: seq<World>, k: nat, fp: Fp)
    requires IsRun(g, steps, worlds) && k < |steps|
    ensures Progresses(g, steps, worlds, k, fp)
  {
    var w, s := worlds[k], steps[k];
    StepInto(g, steps, worlds, k + 1);
    TrustState.AlwaysSane(g, steps, worlds, k);
    PendingExactly(g, w, s.event, s.at, fp);
    if Opens(g, w, s.event, s.at, fp) {
      OpenedWith(g, w, s.event, s.at, fp);
    } else if Asks(g, w, s.event, fp) {
      RefreshedWith(g, w, s.event, s.at, fp);
    } else if fp in w.auth.pending && fp in worlds[k + 1].auth.pending {
      OtherwiseKept(g, w, s.event, s.at, fp);
    }
  }

  /** The whole of it. */
  predicate Progress(g: Setting, steps: seq<Step>, worlds: seq<World>, fp: Fp) {
    && |worlds| == |steps| + 1 && fp !in worlds[0].auth.pending
    && forall k | 0 <= k < |steps| :: Progresses(g, steps, worlds, k, fp)
  }

  lemma RunProgresses(g: Setting, steps: seq<Step>, worlds: seq<World>, fp: Fp)
    requires IsRun(g, steps, worlds)
    ensures Progress(g, steps, worlds, fp)
  {
    forall k | 0 <= k < |steps|
      ensures Progresses(g, steps, worlds, k, fp)
    {
      StepProgresses(g, steps, worlds, k, fp);
    }
  }

  lemma ToldNext(g: Setting, steps: seq<Step>, worlds: seq<World>, j: nat, m: nat, n: nat, k: nat, fp: Fp,
                 r: Request, r': Request)
    returns (m': nat, n': nat)
    requires |worlds| == |steps| + 1 && k < |steps| && fp in worlds[k].auth.pending
    requires Told(g, steps, worlds, j, m, n, k, fp, r) && Passes(g, steps, worlds, k, fp, r, r')
    requires !OpensAt(g, steps, worlds, k, fp) && !ClosesAt(g, steps, worlds, k, fp)
    ensures Told(g, steps, worlds, j, m', n', k + 1, fp, r')
  {
    OneMoreAllowed(steps, j, k, fp);
    m' := if AsksAt(g, steps, worlds, k, fp) then k else m;
    n' := if Signals(g, steps, worlds, k, fp) then k else n;
  }

  lemma {:induction false} Trace(g: Setting, steps: seq<Step>, worlds: seq<World>, k: nat, fp: Fp)
    returns (j: nat, m: nat, n: nat)
    requires Progress(g, steps, worlds, fp) && k < |worlds| && fp in worlds[k].auth.pending
    ensures Told(g, steps, worlds, j, m, n, k, fp, worlds[k].auth.pending[fp])
  {
    j, m, n := 0, 0, 0;
    if k > 0 {
      assert Progresses(g, steps, worlds, k - 1, fp);
      if OpensAt(g, steps, worlds, k - 1, fp) {
        j, m, n := k - 1, k - 1, k - 1;
      } else {
        j, m, n := Trace(g, steps, worlds, k - 1, fp);
        m, n := ToldNext(g, steps, worlds, j, m, n, k - 1, fp, worlds[k - 1].auth.pending[fp],
                         worlds[k].auth.pending[fp]);
      }
    }
  }

  /** In every run: a waiting device has what it said in the HELLO that opened its
      request, the challenge, keys and socket of its last HELLO, a minute since
      it last gave a sign, and a grant exactly if the operator allowed it once
      since then. */
  lemma RequestKnown(g: Setting, steps: seq<Step>, worlds: seq<World>, k: nat, fp: Fp)
    returns (j: nat, m: nat, n: nat)
    requires IsRun(g, steps, worlds) && k < |worlds| && fp in worlds[k].auth.pending
    ensures Told(g, steps, worlds, j, m, n, k, fp, worlds[k].auth.pending[fp])
  {
    RunProgresses(g, steps, worlds, fp);
    j, m, n := Trace(g, steps, worlds, k, fp);
  }

  lemma StillOpen(g: Setting, steps: seq<Step>, worlds: seq<World>, j: nat, k: nat, fp: Fp)
    requires Progress(g, steps, worlds, fp) && OpenSince(g, steps, worlds, j, k, fp)
    ensures fp in worlds[k].auth.pending
  {
    assert Progresses(g, steps, worlds, k - 1, fp);
  }

  /** In every run a device is waiting if and only if some HELLO opened a request
      for it and nothing that ends one has come since. */
  lemma WaitsExactly(g: Setting, steps: seq<Step>, worlds: seq<World>, k: nat, fp: Fp)
    requires IsRun(g, steps, worlds) && k < |worlds|
    ensures fp in worlds[k].auth.pending <==> exists j: nat :: OpenSince(g, steps, worlds, j, k, fp)
  {
    RunProgresses(g, steps, worlds, fp);
    if fp in worlds[k].auth.pending {
      var j, m, n := RequestKnown(g, steps, worlds, k, fp);
    }
    forall j: nat | OpenSince(g, steps, worlds, j, k, fp)
      ensures fp in worlds[k].auth.pending
    {
      StillOpen(g, steps, worlds, j, k, fp);
    }
  }

  lemma {:induction false} TimeGoesOn(g: Setting, steps: seq<Step>, worlds: seq<World>, i: nat, k: nat)
    requires IsRun(g, steps, worlds) && i <= k < |steps|
    ensures steps[i].at <= steps[k].at
  {
    if i < k {
      TimeGoesOn(g, steps, worlds, i, k - 1);
      StepInto(g, steps, worlds, k);
      StepInto(g, steps, worlds, k + 1);
    }
  }

  /** Every session of every run is installed at most a minute after its device
      last said HELLO or PING. */
  lemma InstalledInTime(g: Setting, steps: seq<Step>, worlds: seq<World>, k: nat) returns (n: nat)
    requires IsRun(g, steps, worlds) && k < |steps| && worlds[k + 1].installs != worlds[k].installs
    ensures |worlds[k + 1].installs| == |worlds[k].installs| + 1
    ensures var i := worlds[k + 1].installs[|worlds[k].installs|];
            n < k && Signals(g, steps, worlds, n, i.fp) && i.at == steps[k].at
            && steps[n].at <= steps[k].at <= steps[n].at + 60_000
  {
    StepInto(g, steps, worlds, k + 1);
    var w, s := worlds[k], steps[k];
    Grants.InstallEffect(g, w, s.event, s.at);
    AnsweredExactly(g.c, w.auth, s.event.fp, s.event.signature, s.at);
    var j, m, last := RequestKnown(g, steps, worlds, k, s.event.fp);
    n := last;
    TimeGoesOn(g, steps, worlds, n, k);
  }
}
