/** The server's authentication state and what each handler and admin route
    does to it, as functions. Clock readings are whole milliseconds. */
module AuthModel {
  import opened Wrappers
  import opened Wire
  import opened Crypto

  const CHALLENGE_TTL := 60_000
  const SESSION_TTL := 1_800_000
  const MAX_PENDING := 100
  const NONCE_HISTORY_LEN := 512
  const RATE_LIMIT_WINDOW := 60_000
  const RATE_LIMIT_MAX := 10
  const PENDING_FP_WINDOW := 60_000
  const PENDING_FP_MAX := 5

  type Fp = string

  // -------------------------------------------------------------------------
  // Records

  datatype Request = Request(deviceId: string, deviceName: string, publicKey: Bytes, ip: string,
                             timestamp: int, challenge: Bytes, expires: int, serverPriv: Bytes,
                             clientX: Bytes, allowOnce: bool, ws: Option<nat>)
  {
    predicate Expired(now: int) {
      now > expires
    }
  }

  datatype Session = Session(key: Bytes, expiresAt: int, deviceName: string, ip: string, udpIp: Option<string>,
                             singleUse: bool, ws: Option<nat>, usedNonces: seq<Bytes>)
  {
    predicate Expired(now: int) {
      now > expiresAt
    }
  }

  datatype Trusted = Trusted(deviceId: string, deviceName: string, publicKey: Bytes, firstApproval: int, lastSeen: int,
                             lastIp: string, connectionCount: nat, acceptCount: nat, rejectCount: nat, blockCount: nat)

  datatype Blocked = Blocked(deviceId: string, deviceName: string, publicKey: Bytes, blockTime: int,
                             lastIp: string, blockCount: nat)

  datatype Auth = Auth(pending: map<Fp, Request>, order: seq<Fp>, sessions: map<Fp, Session>,
                       trusted: map<Fp, Trusted>, blocked: map<Fp, Blocked>)

  // -------------------------------------------------------------------------
  // Messages

  datatype ClientKey = Missing | Malformed | Given(bytes: Bytes)

  datatype Hello = Hello(deviceId: string, deviceName: string, publicKey: Bytes, ip: string,
                         clientKey: ClientKey, ws: Option<nat>)

  /** What `generate_challenge` and `generate_x25519_keypair` return. */
  datatype Fresh = Fresh(challenge: Bytes, serverPriv: Bytes)

  /** A challenge on its way to the client, with the server's key and signature
      if there is a client key to bind. */
  datatype Offer = Offer(challenge: Bytes, serverX: Option<Bytes>, signature: Option<Signature>)

  datatype Reply = RateLimited | Error | InternalError | IsBlocked | IsPending | Challenge(offer: Offer) | Authenticated

  // -------------------------------------------------------------------------
  // The queue

  /** `deque.remove`, or nothing if the value is not there. */
  function RemoveFirst(order: seq<Fp>, fp: Fp): seq<Fp> {
    if order == [] then []
    else if order[0] == fp then order[1..]
    else [order[0]] + RemoveFirst(order[1..], fp)
  }

  /** One occurrence of each. */
  function RemoveFirstOfAll(order: seq<Fp>, fps: set<Fp>): seq<Fp> {
    if order == [] then []
    else if order[0] in fps then RemoveFirstOfAll(order[1..], fps - {order[0]})
    else [order[0]] + RemoveFirstOfAll(order[1..], fps)
  }

  function DropPending(a: Auth, fp: Fp): Auth {
    a.(pending := a.pending - {fp}, order := RemoveFirst(a.order, fp))
  }

  /** `popleft`, and whatever request that name still has. */
  function EvictHead(a: Auth): Auth
    requires a.order != []
  {
    a.(pending := a.pending - {a.order[0]}, order := a.order[1..])
  }

  /** Every pending device occurs in the queue. */
  predicate Covered(a: Auth) {
    forall fp | fp in a.pending :: fp in a.order
  }

  lemma FullQueueHasHead(a: Auth)
    requires Covered(a) && a.pending != map[]
    ensures a.order != []
  {
    assert a.pending.Keys != {};
    var fp :| fp in a.pending;
    assert fp in a.order;
  }

  // -------------------------------------------------------------------------
  // HELLO

  function NewRequest(h: Hello, clientX: Bytes, draw: Fresh, now: int): Request {
    Request(h.deviceId, h.deviceName, h.publicKey, h.ip, now, draw.challenge, now + CHALLENGE_TTL,
            draw.serverPriv, clientX, false, h.ws)
  }

  function Refreshed(r: Request, clientX: Bytes, ws: Option<nat>, draw: Fresh, now: int): Request {
    r.(challenge := draw.challenge, expires := now + CHALLENGE_TTL, serverPriv := draw.serverPriv,
       clientX := if clientX != [] then clientX else r.clientX,
       ws := if ws.Some? then ws else r.ws)
  }

  /** What the client has to sign to answer a request's challenge. */
  function RequestBinding(c: Suite, r: Request): Bytes {
    Binding(r.challenge, r.clientX, c.publicOf(r.serverPriv))
  }

  function SignedOffer(c: Suite, serverKey: Bytes, r: Request): Offer {
    Offer(r.challenge, Some(c.publicOf(r.serverPriv)), Some(Signature(serverKey, RequestBinding(c, r))))
  }

  function OfferOf(c: Suite, serverKey: Bytes, r: Request): Offer {
    if r.clientX == [] then Offer(r.challenge, None, None)
    else SignedOffer(c, serverKey, r)
  }

  function IssueChallenge(c: Suite, serverKey: Bytes, a: Auth, fp: Fp, h: Hello, clientX: Bytes, draw: Fresh, now: int)
    : (Auth, Reply)
  {
    if fp in a.pending && !a.pending[fp].Expired(now) then
      var r := Refreshed(a.pending[fp], clientX, h.ws, draw, now);
      (a.(pending := a.pending[fp := r]), Challenge(OfferOf(c, serverKey, r)))
    else
      var r := NewRequest(h, clientX, draw, now);
      (a.(pending := a.pending[fp := r], order := if fp in a.order then a.order else a.order + [fp]),
       Challenge(OfferOf(c, serverKey, r)))
  }

  /** Make room in a full queue, or nothing when `popleft` raises. */
  function MakeRoom(a: Auth): Option<Auth> {
    if |a.pending| < MAX_PENDING then Some(a)
    else if a.order == [] then None
    else Some(EvictHead(a))
  }

  function Enqueue(a: Auth, fp: Fp, r: Request): Auth {
    a.(pending := a.pending[fp := r], order := a.order + [fp])
  }

  /** `allowed` and `fpAllowed` are the verdicts of the two rate limiters. */
  function HandleHello(c: Suite, serverKey: Bytes, a: Auth, h: Hello, draw: Fresh, now: int, allowed: bool,
                       fpAllowed: bool)
    : (Auth, Reply)
  {
    if !allowed then (a, RateLimited)
    else
      match h.clientKey
      case Missing => (a, Error)
      case Malformed => (a, Error)
      case Given(clientX) =>
        var fp := c.fingerprint(h.publicKey);
        if fp in a.blocked then (a, IsBlocked)
        else if fp in a.trusted then IssueChallenge(c, serverKey, a, fp, h, clientX, draw, now)
        else if !fpAllowed then (a, RateLimited)
        else
          match MakeRoom(a)
          case None => (a, InternalError)
          case Some(room) => (Enqueue(room, fp, NewRequest(h, clientX, draw, now)), IsPending)
  }

  // -------------------------------------------------------------------------
  // CHALLENGE_RESPONSE

  /** `update_trusted_stats`. */
  function CountConnection(trusted: map<Fp, Trusted>, fp: Fp, ip: string, now: int): map<Fp, Trusted> {
    if fp in trusted then
      var t := trusted[fp];
      trusted[fp := t.(lastSeen := now, lastIp := ip, connectionCount := t.connectionCount + 1)]
    else trusted
  }

  /** The key the server derives, when the response stands. */
  function SessionKeyFor(c: Suite, r: Request, signature: Option<Signature>): Option<Bytes> {
    if |r.publicKey| != KEY_LEN || signature.None? then None
    else if !Verifies(r.publicKey, RequestBinding(c, r), signature.value) then None
    else
      match c.exchange(r.serverPriv, r.clientX)
      case None => None
      case Some(shared) => Some(c.derive(shared, r.challenge))
  }

  function NewSession(r: Request, key: Bytes, now: int): Session {
    Session(key, now + SESSION_TTL, r.deviceName, r.ip, None, r.allowOnce, r.ws, [])
  }

  function VerifyChallenge(c: Suite, a: Auth, fp: Fp, signature: Option<Signature>, now: int): (Auth, Reply) {
    if fp !in a.pending then (a, Error)
    else
      var r := a.pending[fp];
      if r.Expired(now) then (DropPending(a, fp), Error)
      else
        match SessionKeyFor(c, r, signature)
        case None => (a, Error)
        case Some(key) =>
          (DropPending(a.(sessions := a.sessions[fp := NewSession(r, key, now)],
                          trusted := CountConnection(a.trusted, fp, r.ip, now)), fp), Authenticated)
  }

  // -------------------------------------------------------------------------
  // The operator

  /** What approving or allowing once sends to a client that is still there. */
  function Push(c: Suite, serverKey: Bytes, a: Auth, fp: Fp, now: int): Option<Offer> {
    if fp in a.pending && a.pending[fp].ws.Some? && !a.pending[fp].Expired(now)
    then
      Some(SignedOffer(c, serverKey, a.pending[fp]))
    else None
  }

  /** What `save_trusted` is given of a device. */
  datatype Identity = Identity(deviceId: string, deviceName: string, publicKey: Bytes, lastIp: string)

  function SaveTrusted(trusted: map<Fp, Trusted>, fp: Fp, d: Identity, now: int): map<Fp, Trusted> {
    trusted[fp :=
      if fp in trusted
      then trusted[fp].(deviceId := d.deviceId, deviceName := d.deviceName, publicKey := d.publicKey,
                        lastSeen := now, lastIp := d.lastIp)
      else Trusted(d.deviceId, d.deviceName, d.publicKey, now, now, d.lastIp, 0, 1, 0, 0)]
  }

  function Requester(r: Request): Identity {
    Identity(r.deviceId, r.deviceName, r.publicKey, r.ip)
  }

  function Approve(a: Auth, fp: Fp, now: int): Auth {
    if fp !in a.pending then a
    else a.(trusted := SaveTrusted(a.trusted, fp, Requester(a.pending[fp]), now))
  }

  function AllowOnce(a: Auth, fp: Fp): Auth {
    if fp !in a.pending then a else a.(pending := a.pending[fp := a.pending[fp].(allowOnce := true)])
  }

  /** The record a block will write: from the request, or from the trusted
      record, or none. */
  function BlockData(a: Auth, fp: Fp): Option<Blocked> {
    if fp in a.pending then
      var r := a.pending[fp];
      Some(Blocked(r.deviceId, r.deviceName, r.publicKey, 0, r.ip, 1))
    else if fp in a.trusted then
      var t := a.trusted[fp];
      Some(Blocked(t.deviceId, t.deviceName, t.publicKey, 0, t.lastIp, t.blockCount))
    else None
  }

  /** Blocking, up to the point where the client's socket is told ... */
  function BlockBegin(a: Auth, fp: Fp): (Auth, Option<Blocked>) {
    (DropPending(a, fp), BlockData(a, fp))
  }

  /** ... and from there on. */
  function BlockCommit(a: Auth, fp: Fp, data: Option<Blocked>, now: int): Auth {
    match data
    case None => a
    case Some(b) =>
      a.(blocked := a.blocked[fp := b.(blockTime := now)], trusted := a.trusted - {fp}, sessions := a.sessions - {fp})
  }

  function Block(a: Auth, fp: Fp, now: int): Auth {
    var (a', data) := BlockBegin(a, fp);
    BlockCommit(a', fp, data, now)
  }

  function RemoveSession(a: Auth, fp: Fp): Auth {
    a.(sessions := a.sessions - {fp})
  }

  function RemoveTrust(a: Auth, fp: Fp): Auth {
    RemoveSession(a, fp).(trusted := a.trusted - {fp})
  }

  function Unblock(a: Auth, fp: Fp): Auth {
    a.(blocked := a.blocked - {fp})
  }

  function TrustBlocked(a: Auth, fp: Fp, now: int): Auth {
    if fp !in a.blocked then a
    else
      var b := a.blocked[fp];
      var d := Identity(b.deviceId, b.deviceName, b.publicKey, b.lastIp);
      Unblock(a, fp).(trusted := SaveTrusted(a.trusted, fp, d, now))
  }

  // -------------------------------------------------------------------------
  // Time and sessions

  function Ping(a: Auth, fp: Fp, now: int): Auth {
    if fp !in a.pending then a
    else a.(pending := a.pending[fp := a.pending[fp].(expires := now + CHALLENGE_TTL)])
  }

  function LiveSessions(a: Auth, now: int): map<Fp, Session> {
    map fp | fp in a.sessions && !a.sessions[fp].Expired(now) :: a.sessions[fp]
  }

  function StaleRequests(a: Auth, now: int): set<Fp> {
    set fp | fp in a.pending && a.pending[fp].Expired(now)
  }

  function Collect(a: Auth, now: int): Auth {
    var stale := StaleRequests(a, now);
    a.(sessions := LiveSessions(a, now), pending := a.pending - stale, order := RemoveFirstOfAll(a.order, stale))
  }

  /** `has_session`: an expired session is deleted on the way. */
  function Touch(a: Auth, fp: Fp, now: int): Auth {
    if fp in a.sessions && a.sessions[fp].Expired(now) then RemoveSession(a, fp) else a
  }

  predicate HasSession(a: Auth, fp: Fp, now: int) {
    fp in a.sessions && !a.sessions[fp].Expired(now)
  }

  function RemoveIfSingleUse(a: Auth, fp: Fp): Auth {
    if fp in a.sessions && a.sessions[fp].singleUse then RemoveSession(a, fp) else a
  }

  /** `deque(maxlen=n).append`. */
  function AppendBounded(nonces: seq<Bytes>, nonce: Bytes): (r: seq<Bytes>) {
    var longer := nonces + [nonce];
    if |longer| > NONCE_HISTORY_LEN then longer[|longer| - NONCE_HISTORY_LEN..] else longer
  }

  predicate NonceIsNew(a: Auth, fp: Fp, nonce: Bytes, now: int) {
    HasSession(a, fp, now) && nonce !in a.sessions[fp].usedNonces
  }

  function AddNonce(a: Auth, fp: Fp, nonce: Bytes): Auth
    requires fp in a.sessions
  {
    var s := a.sessions[fp];
    a.(sessions := a.sessions[fp := s.(usedNonces := AppendBounded(s.usedNonces, nonce))])
  }
}
