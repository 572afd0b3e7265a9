/** Two invariants of the authentication state under every step: the queue
    covers the pending devices, and trust and blocks never overlap. */
module TrustState {
  import opened Wrappers
  import opened Wire
  import opened Crypto
  import opened AuthModel
  import opened Heartbeat
  import opened StreamModel
  import opened Server
  import Grants

  /** No device is both trusted and blocked, and a blocked one has neither a
      pending request nor a session. */
  predicate Apart(a: Auth) {
    && a.trusted.Keys !! a.blocked.Keys
    && a.blocked.Keys !! a.pending.Keys
    && a.blocked.Keys !! a.sessions.Keys
  }

  predicate Sane(a: Auth) {
    Covered(a) && Apart(a)
  }

  // -------------------------------------------------------------------------
  // The queue

  lemma {:induction false} RemoveFirstKeeps(order: seq<Fp>, fp: Fp, other: Fp)
    requires other != fp
    ensures other in RemoveFirst(order, fp) <==> other in order
  {
    if order != [] && order[0] != fp {
      RemoveFirstKeeps(order[1..], fp, other);
      assert order == [order[0]] + order[1..];
    } else if order != [] {
      assert order == [order[0]] + order[1..];
    }
  }

  lemma {:induction false} RemoveFirstOfAllKeeps(order: seq<Fp>, fps: set<Fp>, other: Fp)
    requires other !in fps
    ensures other in RemoveFirstOfAll(order, fps) <==> other in order
  {
    if order != [] {
      RemoveFirstOfAllKeeps(order[1..], if order[0] in fps then fps - {order[0]} else fps, other);
      assert order == [order[0]] + order[1..];
    }
  }

  lemma DropPendingCovers(a: Auth, fp: Fp)
    requires Covered(a)
    ensures Covered(DropPending(a, fp))
  {
    forall other | other in a.pending && other != fp
      ensures other in RemoveFirst(a.order, fp)
    {
      RemoveFirstKeeps(a.order, fp, other);
    }
  }

  lemma DropPendingKeeps(a: Auth, fp: Fp)
    requires Sane(a)
    ensures Sane(DropPending(a, fp))
  {
    DropPendingCovers(a, fp);
  }

  lemma EvictHeadKeeps(a: Auth)
    requires Sane(a) && a.order != []
    ensures Sane(EvictHead(a))
  {
    assert a.order == [a.order[0]] + a.order[1..];
  }

  // -------------------------------------------------------------------------
  // The handlers

  lemma HelloKeeps(c: Suite, serverKey: Bytes, a: Auth, h: Hello, draw: Fresh, now: int, allowed: bool, fpAllowed: bool)
    requires Sane(a)
    ensures var (a', reply) := HandleHello(c, serverKey, a, h, draw, now, allowed, fpAllowed);
            Sane(a') && reply != InternalError
  {
    if |a.pending| >= MAX_PENDING {
      FullQueueHasHead(a);
      EvictHeadKeeps(a);
    }
  }

  lemma VerifyKeeps(c: Suite, a: Auth, fp: Fp, signature: Option<Signature>, now: int)
    requires Sane(a)
    ensures Sane(VerifyChallenge(c, a, fp, signature, now).0)
  {
    if fp in a.pending {
      var r := a.pending[fp];
      DropPendingKeeps(a, fp);
      if SessionKeyFor(c, r, signature).Some? {
        var key := SessionKeyFor(c, r, signature).value;
        DropPendingKeeps(a.(sessions := a.sessions[fp := NewSession(r, key, now)],
                            trusted := CountConnection(a.trusted, fp, r.ip, now)), fp);
      }
    }
  }

  /** A step that only takes sessions away, or changes them, keeps both. */
  lemma FewerSessionsKeep(a: Auth, a': Auth)
    requires Sane(a) && a' == a.(sessions := a'.sessions) && a'.sessions.Keys <= a.sessions.Keys
    ensures Sane(a')
  {
  }

  lemma CollectCovers(a: Auth, now: int)
    requires Covered(a)
    ensures Covered(Collect(a, now))
  {
    forall other | other in a.pending && other !in StaleRequests(a, now)
      ensures other in RemoveFirstOfAll(a.order, StaleRequests(a, now))
    {
      RemoveFirstOfAllKeeps(a.order, StaleRequests(a, now), other);
    }
  }

  lemma CollectKeeps(a: Auth, now: int)
    requires Sane(a)
    ensures Sane(Collect(a, now))
  {
    CollectCovers(a, now);
  }

  lemma BeatTouchesSessions(c: Suite, a: Auth, t: Table, data: Bytes, ip: string, port: nat, now: int, allowed: bool)
    ensures var a' := OnHeartbeat(c, a, t, data, ip, port, now, allowed).0;
            a' == a.(sessions := a'.sessions) && a'.sessions.Keys <= a.sessions.Keys
  {
    if allowed && Parse(data).Some? {
      BeatEffect(c, a, t, Parse(data).value, ip, port, now);
    }
  }

  lemma NextKeepsSane(g: Setting, w: World, e: Event, at: int)
    requires Sane(w.auth)
    ensures Sane(AuthAfter(g, w, e, at))
  {
    match e
    case HelloMsg(h, draw, allowed, fpAllowed) => HelloKeeps(g.c, g.serverKey, w.auth, h, draw, at, allowed, fpAllowed);
    case ResponseMsg(fp, signature) => VerifyKeeps(g.c, w.auth, fp, signature, at);
    case RejectCmd(fp) => DropPendingKeeps(w.auth, fp);
    case BlockCmd(fp) => DropPendingKeeps(w.auth, fp);
    case Collection => CollectKeeps(w.auth, at);
    case Datagram(data, ip, port, ok) =>
      BeatTouchesSessions(g.c, w.auth, w.table, data, ip, port, at, ok);
      FewerSessionsKeep(w.auth, AuthAfter(g, w, e, at));
    case _ =>
  }

  lemma SaneNext(g: Setting, steps: seq<Step>, worlds: seq<World>, k: nat)
    requires IsRun(g, steps, worlds) && 0 < k < |worlds| && Sane(worlds[k - 1].auth)
    ensures Sane(worlds[k].auth)
  {
    StepInto(g, steps, worlds, k);
    NextKeepsSane(g, worlds[k - 1], steps[k - 1].event, steps[k - 1].at);
  }

  /** In every run, every pending device stays in the queue, whatever duplicates
      and stale names the queue holds; no device is ever both trusted and blocked;
      and no blocked device has a pending request or a session. */
  lemma {:induction false} AlwaysSane(g: Setting, steps: seq<Step>, worlds: seq<World>, k: nat)
    requires IsRun(g, steps, worlds) && k < |worlds|
    ensures Sane(worlds[k].auth)
  {
    if k > 0 {
      AlwaysSane(g, steps, worlds, k - 1);
      SaneNext(g, steps, worlds, k);
    }
  }

  /** So a HELLO that finds the queue full always finds a head to evict: at no
      point of any run does it end in an error of the service's own. */
  lemma HelloNeverFails(g: Setting, steps: seq<Step>, worlds: seq<World>, k: nat, h: Hello, draw: Fresh, now: int,
                        allowed: bool, fpAllowed: bool)
    requires IsRun(g, steps, worlds) && k < |worlds|
    ensures HandleHello(g.c, g.serverKey, worlds[k].auth, h, draw, now, allowed, fpAllowed).1 != InternalError
  {
    AlwaysSane(g, steps, worlds, k);
    HelloKeeps(g.c, g.serverKey, worlds[k].auth, h, draw, now, allowed, fpAllowed);
  }

  // -------------------------------------------------------------------------
  // Where the code falls short of what one would expect

  /** Blocking is not one atomic step: the request goes first, then the
      client's socket is told, then the block is written. Whatever happens in
      between, the block leaves the state consistent exactly when the device has
      no pending request by then. */
  lemma BlockCommitKeepsExactly(a: Auth, fp: Fp, b: Blocked, now: int)
    requires Sane(a)
    ensures Sane(BlockCommit(a, fp, Some(b), now)) <==> fp !in a.pending
  {
    var a' := BlockCommit(a, fp, Some(b), now);
    if fp in a.pending {
      assert fp in a'.blocked.Keys * a'.pending.Keys;
    }
  }

  /** The steps lead from world to world, and in none of them the device says
      HELLO. */
  predicate Quiet(g: Setting, fp: Fp, steps: seq<Step>, worlds: seq<World>) {
    && |worlds| == |steps| + 1
    && forall k | 0 <= k < |steps| ::
         Goes(g, worlds[k], steps[k], worlds[k + 1])
         && (steps[k].event.HelloMsg? ==> g.c.fingerprint(steps[k].event.hello.publicKey) != fp)
  }

  lemma {:induction false} QuietStaysOut(g: Setting, fp: Fp, steps: seq<Step>, worlds: seq<World>, k: nat)
    requires Quiet(g, fp, steps, worlds) && k < |worlds|
    requires fp !in worlds[0].auth.pending && Sane(worlds[0].auth)
    ensures fp !in worlds[k].auth.pending && Sane(worlds[k].auth)
  {
    if k > 0 {
      QuietStaysOut(g, fp, steps, worlds, k - 1);
      var w, s := worlds[k - 1], steps[k - 1];
      assert Goes(g, w, s, worlds[k - 1 + 1]);
      Grants.PendingEffect(g, w, s.event, s.at);
      NextKeepsSane(g, w, s.event, s.at);
    }
  }

  /** So a block may be interrupted by anything but the device's own HELLO:
      whatever steps the server takes between the two halves, the block then
      leaves everything consistent. */
  lemma BlockSurvivesInterruption(g: Setting, a: Auth, fp: Fp, steps: seq<Step>, worlds: seq<World>, b: Blocked,
                                  now: int)
    requires Sane(a) && Quiet(g, fp, steps, worlds) && worlds[0].auth == BlockBegin(a, fp).0
    ensures Sane(BlockCommit(worlds[|steps|].auth, fp, Some(b), now))
  {
    DropPendingKeeps(a, fp);
    QuietStaysOut(g, fp, steps, worlds, |steps|);
    BlockCommitKeepsExactly(worlds[|steps|].auth, fp, b, now);
  }

  /** And so does one that is not interrupted at all. */
  lemma BlockKeeps(a: Auth, fp: Fp, now: int)
    requires Sane(a)
    ensures Sane(Block(a, fp, now))
  {
    DropPendingKeeps(a, fp);
  }

  /** Blocking takes effect exactly on a device that is waiting or trusted. Any
      other one, such as a device that was allowed once and is now connected,
      keeps its session and is not blocked; all that goes is a name in the
      queue. */
  lemma BlockTakesEffectExactly(a: Auth, fp: Fp, now: int)
    ensures var a' := Block(a, fp, now);
            if fp in a.pending || fp in a.trusted
            then fp in a'.blocked && fp !in a'.sessions && fp !in a'.pending && fp !in a'.trusted
            else a' == a.(order := RemoveFirst(a.order, fp))
  {
    assert fp !in a.pending ==> a.pending - {fp} == a.pending;
  }

  lemma OneMorePending(pending: map<Fp, Request>, fp: Fp, r: Request)
    ensures |pending[fp := r]| == |pending| + if fp in pending then 0 else 1
  {
    assert pending[fp := r].Keys == pending.Keys + {fp};
  }

  lemma OneLessPending(pending: map<Fp, Request>, fp: Fp)
    ensures |pending - {fp}| == |pending| - if fp in pending then 1 else 0
  {
    assert (pending - {fp}).Keys == pending.Keys - {fp};
  }

  lemma TrustedHelloGrows(c: Suite, serverKey: Bytes, a: Auth, fp: Fp, h: Hello, clientX: Bytes, draw: Fresh, now: int)
    ensures |IssueChallenge(c, serverKey, a, fp, h, clientX, draw, now).0.pending| > |a.pending| <==> fp !in a.pending
  {
    OneMorePending(a.pending, fp, IssueChallenge(c, serverKey, a, fp, h, clientX, draw, now).0.pending[fp]);
  }

  lemma UnknownHelloGrows(a: Auth, fp: Fp, r: Request)
    requires a.order != []
    ensures |Enqueue(EvictHead(a), fp, r).pending| > |a.pending| <==> a.order[0] !in a.pending && fp !in a.pending
  {
    OneLessPending(a.pending, a.order[0]);
    OneMorePending(a.pending - {a.order[0]}, fp, r);
  }

  /** A full queue is not a bound on the pending requests. A HELLO makes them
      more than before, and more than the limit, exactly when it gets past the
      first limiter with a client key, and its device is neither blocked nor
      pending, and is either trusted, for then there is no limit at all, or gets
      past the second limiter and finds a stale name at the queue's head. */
  lemma PendingGrowsPastLimit(c: Suite, serverKey: Bytes, a: Auth, h: Hello, draw: Fresh, now: int, allowed: bool,
                              fpAllowed: bool)
    requires Covered(a) && |a.pending| >= MAX_PENDING
    ensures a.order != []
    ensures var fp := c.fingerprint(h.publicKey);
            |HandleHello(c, serverKey, a, h, draw, now, allowed, fpAllowed).0.pending| > |a.pending| <==>
            && allowed && h.clientKey.Given? && fp !in a.blocked && fp !in a.pending
            && (fp in a.trusted || (fpAllowed && a.order[0] !in a.pending))
  {
    FullQueueHasHead(a);
    var fp := c.fingerprint(h.publicKey);
    if h.clientKey.Given? {
      if fp in a.trusted {
        TrustedHelloGrows(c, serverKey, a, fp, h, h.clientKey.bytes, draw, now);
      } else {
        UnknownHelloGrows(a, fp, NewRequest(h, h.clientKey.bytes, draw, now));
      }
    }
  }

  /** And a HELLO between the two halves of a block breaks consistency. */
  lemma BlockInterrupted(c: Suite, serverKey: Bytes, a: Auth, h: Hello, draw: Fresh, now: int)
    requires Sane(a) && |a.pending| <= MAX_PENDING && h.clientKey.Given?
    requires var fp := c.fingerprint(h.publicKey); fp in a.pending && fp !in a.trusted
    ensures var fp := c.fingerprint(h.publicKey);
            var (begun, data) := BlockBegin(a, fp);
            var (between, reply) := HandleHello(c, serverKey, begun, h, draw, now, true, true);
            reply == IsPending && !Sane(BlockCommit(between, fp, data, now))
  {
    var fp := c.fingerprint(h.publicKey);
    var (begun, data) := BlockBegin(a, fp);
    DropPendingKeeps(a, fp);
    assert begun.pending.Keys == a.pending.Keys - {fp};
    HelloKeeps(c, serverKey, begun, h, draw, now, true, true);
    BlockCommitKeepsExactly(HandleHello(c, serverKey, begun, h, draw, now, true, true).0, fp, data.value, now);
  }

  /** Removing a device's trust ends its session but leaves its request. After
      it, some response still authenticates the device exactly when that request
      is there, unexpired, and has usable keys; and the session is then good for
      more than one use unless the operator had also allowed the device once. */
  lemma RemovedTrustExactly(c: Suite, a: Auth, fp: Fp, now: int)
    ensures var removed := RemoveTrust(a, fp);
            && fp !in removed.trusted && fp !in removed.sessions
            && ((exists s :: VerifyChallenge(c, removed, fp, s, now).1 == Authenticated)
                <==> fp in a.pending && !a.pending[fp].Expired(now) && |a.pending[fp].publicKey| == KEY_LEN
                     && c.exchange(a.pending[fp].serverPriv, a.pending[fp].clientX).Some?)
            && forall s | VerifyChallenge(c, removed, fp, s, now).1 == Authenticated ::
                 var a' := VerifyChallenge(c, removed, fp, s, now).0;
                 fp !in a'.trusted && fp in a'.sessions && (a'.sessions[fp].singleUse <==> a.pending[fp].allowOnce)
  {
    var removed := RemoveTrust(a, fp);
    if fp in a.pending {
      var r := a.pending[fp];
      var s := Some(Signature(r.publicKey, RequestBinding(c, r)));
      assert VerifyChallenge(c, removed, fp, s, now).1 == Authenticated <==>
             !r.Expired(now) && |r.publicKey| == KEY_LEN && c.exchange(r.serverPriv, r.clientX).Some?;
    }
  }
}
