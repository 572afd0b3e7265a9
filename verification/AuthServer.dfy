/** The authentication service and the device registry, in place: every method
    does exactly what the function of the same name in `AuthModel` says. */
module AuthServer {
  import opened Wrappers
  import opened Wire
  import opened Crypto
  import opened AuthModel
  import opened RateLimits
  import TrustState

  // -------------------------------------------------------------------------
  // The registry

  /** The trusted and the blocked directory: a record for each name. */
  class DeviceRegistry {
    var trusted: map<Fp, Trusted>
    var blocked: map<Fp, Blocked>

    constructor (trusted: map<Fp, Trusted>, blocked: map<Fp, Blocked>)
      ensures this.trusted == trusted && this.blocked == blocked
    {
      this.trusted := trusted;
      this.blocked := blocked;
    }

    method SaveTrusted(fp: Fp, device: Identity, now: int)
      modifies this`trusted
      ensures trusted == AuthModel.SaveTrusted(old(trusted), fp, device, now)
    {
      if fp in trusted {
        var existing := trusted[fp];
        existing := existing.(deviceId := device.deviceId, deviceName := device.deviceName);
        existing := existing.(publicKey := device.publicKey);
        existing := existing.(lastSeen := now, lastIp := device.lastIp);
        trusted := trusted[fp := existing];
      } else {
        var record := Trusted(device.deviceId, device.deviceName, device.publicKey, now, now, device.lastIp,
                              0, 1, 0, 0);
        trusted := trusted[fp := record];
      }
    }

    method RemoveTrusted(fp: Fp)
      modifies this`trusted
      ensures trusted == old(trusted) - {fp}
    {
      trusted := trusted - {fp};
    }

    method SaveBlocked(fp: Fp, device: Blocked, now: int)
      modifies this
      ensures blocked == old(blocked)[fp := device.(blockTime := now)]
      ensures trusted == old(trusted) - {fp}
    {
      blocked := blocked[fp := device.(blockTime := now)];
      RemoveTrusted(fp);
    }

    method RemoveBlocked(fp: Fp)
      modifies this`blocked
      ensures blocked == old(blocked) - {fp}
    {
      blocked := blocked - {fp};
    }

    method UpdateTrustedStats(fp: Fp, ip: string, now: int)
      modifies this`trusted
      ensures trusted == CountConnection(old(trusted), fp, ip, now)
    {
      if fp in trusted {
        var d := trusted[fp];
        d := d.(lastSeen := now, lastIp := ip);
        d := d.(connectionCount := d.connectionCount + 1);
        trusted := trusted[fp := d];
      }
    }
  }

  // -------------------------------------------------------------------------
  // The queue, one name at a time

  lemma {:induction false} RemoveOneOfAll(order: seq<Fp>, fps: set<Fp>, fp: Fp)
    requires fp in fps
    ensures RemoveFirstOfAll(RemoveFirst(order, fp), fps - {fp}) == RemoveFirstOfAll(order, fps)
  {
    if order != [] && order[0] != fp {
      var rest := RemoveFirst(order[1..], fp);
      assert RemoveFirst(order, fp)[1..] == rest;
      if order[0] in fps {
        RemoveOneOfAll(order[1..], fps - {order[0]}, fp);
        assert fps - {fp} - {order[0]} == fps - {order[0]} - {fp};
      } else {
        RemoveOneOfAll(order[1..], fps, fp);
      }
    }
  }

  lemma {:induction false} RemoveNone(order: seq<Fp>)
    ensures RemoveFirstOfAll(order, {}) == order
  {
    if order != [] {
      RemoveNone(order[1..]);
    }
  }

  /** What the two limiters say of a HELLO. */
  datatype Verdicts = Verdicts(hello: bool, newName: bool)

  // -------------------------------------------------------------------------
  // The service

  class AuthService {
    const c: Suite
    const serverKey: Bytes
    const reg: DeviceRegistry
    const limiter: RateLimiter
    const nameLimiter: RateLimiter
    var pending: map<Fp, Request>
    var order: seq<Fp>
    var sessions: map<Fp, Session>

    ghost function State(): Auth
      reads this, reg
    {
      Auth(pending, order, sessions, reg.trusted, reg.blocked)
    }

    ghost function Repr(): set<object> {
      {this, reg, limiter, nameLimiter}
    }

    ghost predicate Valid()
      reads Repr()
    {
      && limiter != nameLimiter && limiter.Valid() && nameLimiter.Valid()
      && limiter.window == RATE_LIMIT_WINDOW && limiter.max == RATE_LIMIT_MAX
      && nameLimiter.window == PENDING_FP_WINDOW && nameLimiter.max == PENDING_FP_MAX
      && Covered(State())
    }

    /** No limiter has read a later time. */
    ghost predicate NotBefore(now: int)
      reads limiter, nameLimiter
    {
      limiter.clock <= now && nameLimiter.clock <= now
    }

    constructor (c: Suite, serverKey: Bytes, reg: DeviceRegistry, ghost now: int)
      ensures Valid() && NotBefore(now) && fresh(Repr() - {reg})
      ensures this.c == c && this.serverKey == serverKey && this.reg == reg
      ensures State() == Auth(map[], [], map[], reg.trusted, reg.blocked)
    {
      this.c := c;
      this.serverKey := serverKey;
      this.reg := reg;
      limiter := new RateLimiter(RATE_LIMIT_WINDOW, RATE_LIMIT_MAX, now);
      nameLimiter := new RateLimiter(PENDING_FP_WINDOW, PENDING_FP_MAX, now);
      pending := map[];
      order := [];
      sessions := map[];
    }

    /** What the rule of the two limiters, applied to all they have ever let
        through, says of a request from this address. */
    ghost function Rule(ip: string, now: int): Verdicts
      reads limiter, nameLimiter
    {
      Verdicts(WouldAllow(limiter.history, ip, now, RATE_LIMIT_WINDOW, RATE_LIMIT_MAX),
               WouldAllow(nameLimiter.history, ip, now, PENDING_FP_WINDOW, PENDING_FP_MAX))
    }

    /** Only the HELLO of a device that is neither blocked nor trusted is
        counted as a new name. */
    ghost predicate AsksForPlace(h: Hello, now: int)
      reads this, reg, limiter, nameLimiter
    {
      && Rule(h.ip, now).hello && h.clientKey.Given?
      && c.fingerprint(h.publicKey) !in reg.blocked && c.fingerprint(h.publicKey) !in reg.trusted
    }

    // -----------------------------------------------------------------------
    // HELLO

    method IssueChallenge(fp: Fp, h: Hello, clientX: Bytes, draw: Fresh, now: int) returns (reply: Reply)
      requires Valid()
      modifies this
      ensures Valid()
      ensures (State(), reply) == AuthModel.IssueChallenge(c, serverKey, old(State()), fp, h, clientX, draw, now)
    {
      var req: Request;
      if fp in pending && !pending[fp].Expired(now) {
        req := pending[fp];
        req := req.(challenge := draw.challenge, expires := now + CHALLENGE_TTL, serverPriv := draw.serverPriv);
        if clientX != [] {
          req := req.(clientX := clientX);
        }
        if h.ws.Some? {
          req := req.(ws := h.ws);
        }
        pending := pending[fp := req];
      } else {
        req := NewRequest(h, clientX, draw, now);
        pending := pending[fp := req];
        if fp !in order {
          order := order + [fp];
        }
      }

      var offer := Offer(req.challenge, None, None);
      if req.clientX != [] {
        var serverX := c.publicOf(req.serverPriv);
        var binding := req.challenge + req.clientX + serverX;
        offer := Offer(req.challenge, Some(serverX), Some(Signature(serverKey, binding)));
      }
      reply := Challenge(offer);
    }

    /** A place in the queue for a device nobody knows. Popping the head of a
        full queue cannot fail, because the queue covers what is pending. */
    method Queue(fp: Fp, h: Hello, clientX: Bytes, draw: Fresh, now: int) returns (reply: Reply)
      requires Valid()
      modifies this
      ensures Valid() && reply == IsPending && MakeRoom(old(State())).Some?
      ensures State() == Enqueue(MakeRoom(old(State())).value, fp, NewRequest(h, clientX, draw, now))
    {
      if |pending| >= MAX_PENDING {
        FullQueueHasHead(State());
        var oldest := order[0];
        assert order == [oldest] + order[1..];
        order := order[1..];
        pending := pending - {oldest};
      }
      pending := pending[fp := NewRequest(h, clientX, draw, now)];
      order := order + [fp];
      reply := IsPending;
    }

    /** One HELLO: the step `HandleHello`, under the verdicts that the limiters'
        rule gives; and what they then remember. It never ends in an error of
        the service's own. */
    method HandleHello(h: Hello, draw: Fresh, now: int) returns (reply: Reply)
      requires Valid() && NotBefore(now)
      modifies Repr()
      ensures Valid() && NotBefore(now) && reply != InternalError
      ensures (State(), reply) == AuthModel.HandleHello(c, serverKey, old(State()), h, draw, now,
                                                        old(Rule(h.ip, now)).hello, old(Rule(h.ip, now)).newName)
      ensures limiter.history == Recorded(old(limiter.history), h.ip, now, old(Rule(h.ip, now)).hello)
      ensures nameLimiter.history ==
              Recorded(old(nameLimiter.history), h.ip, now, old(AsksForPlace(h, now)) && old(Rule(h.ip, now)).newName)
    {
      var allowed := limiter.Allow(h.ip, now);
      if !allowed {
        return RateLimited;
      }
      var fp := c.fingerprint(h.publicKey);
      if !h.clientKey.Given? {
        return Error;
      }
      var clientX := h.clientKey.bytes;
      if fp in reg.blocked {
        return IsBlocked;
      }
      if fp in reg.trusted {
        reply := IssueChallenge(fp, h, clientX, draw, now);
        return;
      }
      var newName := nameLimiter.Allow(h.ip, now);
      if !newName {
        return RateLimited;
      }
      reply := Queue(fp, h, clientX, draw, now);
    }

    // -----------------------------------------------------------------------
    // CHALLENGE_RESPONSE

    method DropRequest(fp: Fp)
      requires Valid()
      modifies this
      ensures Valid() && State() == DropPending(old(State()), fp)
    {
      TrustState.DropPendingCovers(State(), fp);
      pending := pending - {fp};
      order := RemoveFirst(order, fp);
    }

    method VerifyChallenge(fp: Fp, signature: Option<Signature>, now: int) returns (reply: Reply)
      requires Valid()
      modifies this, reg
      ensures Valid()
      ensures (State(), reply) == AuthModel.VerifyChallenge(c, old(State()), fp, signature, now)
    {
      if fp !in pending {
        return Error;
      }
      var req := pending[fp];
      if req.Expired(now) {
        DropRequest(fp);
        return Error;
      }
      if |req.publicKey| != KEY_LEN || signature.None? {
        return Error;
      }
      var serverX := c.publicOf(req.serverPriv);
      var binding := req.challenge + req.clientX + serverX;
      if !Verifies(req.publicKey, binding, signature.value) {
        return Error;
      }
      var shared := c.exchange(req.serverPriv, req.clientX);
      if shared.None? {
        return Error;
      }
      var key := c.derive(shared.value, req.challenge);
      sessions := sessions[fp := NewSession(req, key, now)];
      reg.UpdateTrustedStats(fp, req.ip, now);
      DropRequest(fp);
      reply := Authenticated;
    }

    // -----------------------------------------------------------------------
    // The operator

    method PushChallenge(fp: Fp, now: int) returns (pushed: Option<Offer>)
      ensures pushed == Push(c, serverKey, State(), fp, now)
    {
      if fp !in pending || pending[fp].ws.None? {
        return None;
      }
      var req := pending[fp];
      if req.Expired(now) {
        return None;
      }
      var serverX := c.publicOf(req.serverPriv);
      var binding := req.challenge + req.clientX + serverX;
      pushed := Some(Offer(req.challenge, Some(serverX), Some(Signature(serverKey, binding))));
    }

    method ApprovePermanently(fp: Fp, now: int) returns (ok: bool, pushed: Option<Offer>)
      requires Valid()
      modifies reg
      ensures Valid() && State() == Approve(old(State()), fp, now)
      ensures ok == (fp in old(pending)) && pushed == Push(c, serverKey, old(State()), fp, now)
    {
      if fp !in pending {
        return false, None;
      }
      reg.SaveTrusted(fp, Requester(pending[fp]), now);
      pushed := PushChallenge(fp, now);
      ok := true;
    }

    method AllowOnce(fp: Fp, now: int) returns (ok: bool, pushed: Option<Offer>)
      requires Valid()
      modifies this
      ensures Valid() && State() == AuthModel.AllowOnce(old(State()), fp)
      ensures ok == (fp in old(pending)) && pushed == Push(c, serverKey, old(State()), fp, now)
    {
      if fp !in pending {
        return false, None;
      }
      pending := pending[fp := pending[fp].(allowOnce := true)];
      pushed := PushChallenge(fp, now);
      ok := true;
    }

    method Reject(fp: Fp) returns (ok: bool)
      requires Valid()
      modifies this
      ensures Valid() && State() == DropPending(old(State()), fp) && ok == (fp in old(pending))
    {
      ok := fp in pending;
      DropRequest(fp);
    }

    /** Blocking, up to the message to the client ... */
    method BlockBegin(fp: Fp) returns (data: Option<Blocked>)
      requires Valid()
      modifies this
      ensures Valid() && (State(), data) == AuthModel.BlockBegin(old(State()), fp)
    {
      if fp in pending {
        var req := pending[fp];
        data := Some(Blocked(req.deviceId, req.deviceName, req.publicKey, 0, req.ip, 1));
      } else if fp in reg.trusted {
        var t := reg.trusted[fp];
        data := Some(Blocked(t.deviceId, t.deviceName, t.publicKey, 0, t.lastIp, t.blockCount));
      } else {
        data := None;
      }
      DropRequest(fp);
    }

    /** ... and after it. */
    method BlockCommit(fp: Fp, data: Option<Blocked>, now: int) returns (ok: bool)
      requires Valid()
      modifies this, reg
      ensures Valid() && State() == AuthModel.BlockCommit(old(State()), fp, data, now) && ok == data.Some?
    {
      if data.None? {
        return false;
      }
      reg.SaveBlocked(fp, data.value, now);
      sessions := sessions - {fp};
      ok := true;
    }

    /** Both, when nothing comes in between. */
    method BlockPermanently(fp: Fp, now: int) returns (ok: bool)
      requires Valid()
      modifies this, reg
      ensures Valid() && State() == Block(old(State()), fp, now)
      ensures ok == (fp in old(pending) || fp in old(reg.trusted))
    {
      var data := BlockBegin(fp);
      ok := BlockCommit(fp, data, now);
    }

    // -----------------------------------------------------------------------
    // Sessions

    method RefreshPending(fp: Fp, now: int)
      requires Valid()
      modifies this
      ensures Valid() && State() == Ping(old(State()), fp, now)
    {
      if fp in pending {
        pending := pending[fp := pending[fp].(expires := now + CHALLENGE_TTL)];
      }
    }

    method HasSession(fp: Fp, now: int) returns (has: bool)
      requires Valid()
      modifies this
      ensures Valid() && State() == Touch(old(State()), fp, now)
      ensures has == AuthModel.HasSession(State(), fp, now) == AuthModel.HasSession(old(State()), fp, now)
    {
      if fp !in sessions {
        return false;
      }
      if sessions[fp].Expired(now) {
        sessions := sessions - {fp};
        return false;
      }
      return true;
    }

    method CheckAndAddNonce(fp: Fp, nonce: Bytes, now: int) returns (ok: bool)
      requires Valid()
      modifies this
      ensures Valid() && ok == NonceIsNew(old(State()), fp, nonce, now)
      ensures State() == if ok then AddNonce(old(State()), fp, nonce) else old(State())
    {
      if fp !in sessions || sessions[fp].Expired(now) {
        return false;
      }
      var s := sessions[fp];
      if nonce in s.usedNonces {
        return false;
      }
      s := s.(usedNonces := AppendBounded(s.usedNonces, nonce));
      sessions := sessions[fp := s];
      ok := true;
    }

    method RemoveSession(fp: Fp)
      requires Valid()
      modifies this
      ensures Valid() && State() == AuthModel.RemoveSession(old(State()), fp)
    {
      sessions := sessions - {fp};
    }

    method RemoveSessionIfSingleUse(fp: Fp)
      requires Valid()
      modifies this
      ensures Valid() && State() == RemoveIfSingleUse(old(State()), fp)
    {
      if fp in sessions && sessions[fp].singleUse {
        sessions := sessions - {fp};
      }
    }

    // -----------------------------------------------------------------------
    // Garbage collection

    method CollectSessions(now: int)
      requires Valid()
      modifies this`sessions
      ensures Valid() && sessions == LiveSessions(old(State()), now)
    {
      var expired := set fp | fp in sessions && sessions[fp].Expired(now);
      while expired != {}
        invariant expired <= sessions.Keys <= old(sessions).Keys
        invariant forall fp | fp in sessions :: sessions[fp] == old(sessions)[fp]
        invariant forall fp | fp in old(sessions) && fp !in sessions :: old(sessions)[fp].Expired(now)
        invariant forall fp | fp in sessions :: sessions[fp].Expired(now) <==> fp in expired
        decreases expired
      {
        var fp :| fp in expired;
        sessions := sessions - {fp};
        expired := expired - {fp};
      }
    }

    method CollectChallenges(now: int)
      requires Valid()
      modifies this`pending, this`order
      ensures Valid() && State() == AuthModel.Collect(old(State()), now).(sessions := sessions)
    {
      ghost var stale := StaleRequests(State(), now);
      TrustState.CollectCovers(State(), now);
      var expired := set fp | fp in pending && pending[fp].Expired(now);
      assert expired == stale;
      while expired != {}
        invariant pending - expired == old(pending) - stale
        invariant RemoveFirstOfAll(order, expired) == RemoveFirstOfAll(old(order), stale)
        decreases expired
      {
        var fp :| fp in expired;
        RemoveOneOfAll(order, expired, fp);
        pending := pending - {fp};
        order := RemoveFirst(order, fp);
        expired := expired - {fp};
      }
      RemoveNone(order);
      assert pending - {} == pending;
    }

    /** One turn of the garbage collector: the limiters forget buckets, but no
        decision of theirs ever changes. */
    method Collect(now: int)
      requires Valid() && NotBefore(now)
      modifies Repr()
      ensures Valid() && NotBefore(now) && State() == AuthModel.Collect(old(State()), now)
      ensures limiter.history == old(limiter.history) && nameLimiter.history == old(nameLimiter.history)
    {
      CollectSessions(now);
      CollectChallenges(now);
      limiter.Prune(now);
      nameLimiter.Prune(now);
    }
  }
}
