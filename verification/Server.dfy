/** The whole server as a state machine: every message, operator action and
    timer is one step. Beside the server's state it records, as history, what
    was drawn, disclosed and signed, the sessions installed, the heartbeats
    accepted, and the grants the operator gave. */
module Server {
  import opened Wrappers
  import opened Wire
  import opened Crypto
  import opened AuthModel
  import opened Heartbeat
  import opened StreamModel
  import opened RateLimits

  /** One run of the client's side of the handshake, up to its signature. */
  datatype Handshake = Handshake(xPriv: Bytes, challenge: Bytes, serverX: Bytes)

  datatype Install = Install(fp: Fp, request: Request, key: Bytes, at: int)

  /** An accepted heartbeat, where it came from, and the key of the session that
      accepted it. */
  datatype Accept = Accept(beat: Beat, ip: string, key: Bytes, at: int)

  /** What each of the three rate limiters has let through. */
  datatype Limits = Limits(hellos: History, names: History, datagrams: History)

  /** What stays the same: the crypto, the server's identity, the identity of
      one honest client, and how late a cleanup tick may come. */
  datatype Setting = Setting(c: Suite, serverKey: Bytes, honest: Bytes, tickGap: nat)

  datatype World = World(auth: Auth, table: Table, now: int, lastTick: int,
                         drawn: set<Bytes>, disclosed: set<Bytes>, signed: set<Signature>, handshakes: seq<Handshake>,
                         installs: seq<Install>, accepts: seq<Accept>, grants: seq<Fp>, everTrusted: set<Fp>,
                         limits: Limits)

  datatype Event =
    /** `allowed`, `fpAllowed` and `udpAllowed` are the limiters' verdicts. */
    | HelloMsg(hello: Hello, draw: Fresh, allowed: bool, fpAllowed: bool)
    | ResponseMsg(fp: Fp, signature: Option<Signature>)
    | PingMsg(fp: Fp)
    | SocketClosed(fp: Fp)
    | ApproveCmd(fp: Fp)
    | AllowOnceCmd(fp: Fp)
    | RejectCmd(fp: Fp)
    | BlockCmd(fp: Fp)
    | RemoveTrustCmd(fp: Fp)
    | UnblockCmd(fp: Fp)
    | TrustBlockedCmd(fp: Fp)
    | DisconnectCmd(fp: Fp)
    | Collection
    | Datagram(data: Bytes, ip: string, port: nat, udpAllowed: bool)
    | CleanupTick
    | BroadcastRound(turns: map<Fp, Turn>)
    /** Anyone but the honest client signs something. */
    | OtherSigns(other: Signature)
    /** The honest client answers a challenge it was sent, by whomever. */
    | HonestSigns(handshake: Handshake)

  // -------------------------------------------------------------------------
  // The honest client

  function ClientBinding(c: Suite, h: Handshake): Bytes {
    Binding(h.challenge, c.publicOf(h.xPriv), h.serverX)
  }

  /** The key the client derives, unless the exchange raises. */
  function ClientKeyOf(c: Suite, h: Handshake): Option<Bytes> {
    match c.exchange(h.xPriv, h.serverX)
    case None => None
    case Some(shared) => Some(c.derive(shared, h.challenge))
  }

  // -------------------------------------------------------------------------
  // One step

  function AuthAfter(g: Setting, w: World, e: Event, at: int): Auth {
    match e
    case HelloMsg(h, draw, allowed, fpAllowed) =>
      HandleHello(g.c, g.serverKey, w.auth, h, draw, at, allowed, fpAllowed).0
    case ResponseMsg(fp, signature) => VerifyChallenge(g.c, w.auth, fp, signature, at).0
    case PingMsg(fp) => Ping(w.auth, fp, at)
    case SocketClosed(fp) => RemoveIfSingleUse(w.auth, fp)
    case ApproveCmd(fp) => Approve(w.auth, fp, at)
    case AllowOnceCmd(fp) => AllowOnce(w.auth, fp)
    case RejectCmd(fp) => DropPending(w.auth, fp)
    case BlockCmd(fp) => Block(w.auth, fp, at)
    case RemoveTrustCmd(fp) => RemoveTrust(w.auth, fp)
    case UnblockCmd(fp) => Unblock(w.auth, fp)
    case TrustBlockedCmd(fp) => TrustBlocked(w.auth, fp, at)
    case DisconnectCmd(fp) => RemoveSession(w.auth, fp)
    case Collection => Collect(w.auth, at)
    case Datagram(data, ip, port, ok) => OnHeartbeat(g.c, w.auth, w.table, data, ip, port, at, ok).0
    case CleanupTick => Cleanup(w.auth, w.table, at).0
    case BroadcastRound(turns) => Round(w.auth, w.table, turns).0
    case OtherSigns(_) => w.auth
    case HonestSigns(_) => w.auth
  }

  function TableAfter(g: Setting, w: World, e: Event, at: int): Table {
    match e
    case DisconnectCmd(fp) => w.table - {fp}
    case Datagram(data, ip, port, ok) => OnHeartbeat(g.c, w.auth, w.table, data, ip, port, at, ok).1
    case CleanupTick => Cleanup(w.auth, w.table, at).1
    case BroadcastRound(turns) => Round(w.auth, w.table, turns).1
    case _ => w.table
  }

  /** The challenge that leaves the server in this step. */
  function Disclosed(g: Setting, w: World, e: Event, at: int): set<Bytes> {
    match e
    case HelloMsg(h, draw, allowed, fpAllowed) =>
      (match HandleHello(g.c, g.serverKey, w.auth, h, draw, at, allowed, fpAllowed).1
       case Challenge(offer) => {offer.challenge}
       case _ => {})
    case ApproveCmd(fp) => Pushed(g, w.auth, fp, at)
    case AllowOnceCmd(fp) => Pushed(g, w.auth, fp, at)
    case _ => {}
  }

  function Pushed(g: Setting, a: Auth, fp: Fp, at: int): set<Bytes> {
    match Push(g.c, g.serverKey, a, fp, at)
    case Some(offer) => {offer.challenge}
    case None => {}
  }

  function Installed(g: Setting, w: World, e: Event, at: int): seq<Install> {
    if e.ResponseMsg? && VerifyChallenge(g.c, w.auth, e.fp, e.signature, at).1 == Authenticated
    then
      var r := w.auth.pending[e.fp];
      [Install(e.fp, r, SessionKeyFor(g.c, r, e.signature).value, at)]
    else []
  }

  function Accepted(g: Setting, w: World, e: Event, at: int): seq<Accept> {
    if e.Datagram? && NonceTaken(OnHeartbeat(g.c, w.auth, w.table, e.data, e.ip, e.port, at, e.udpAllowed).2)
    then
      var b := Parse(e.data).value;
      [Accept(b, e.ip, w.auth.sessions[b.name].key, at)]
    else []
  }

  function Granted(w: World, e: Event): seq<Fp> {
    if e.AllowOnceCmd? && e.fp in w.auth.pending then [e.fp] else []
  }

  function SignedBy(g: Setting, e: Event): set<Signature> {
    match e
    case OtherSigns(s) => {s}
    case HonestSigns(h) => {Signature(g.honest, ClientBinding(g.c, h))}
    case _ => {}
  }

  /** The second limiter is asked only about a device that is neither blocked
      nor trusted. */
  predicate AsksForPlace(g: Setting, w: World, h: Hello, allowed: bool) {
    && allowed && h.clientKey.Given?
    && g.c.fingerprint(h.publicKey) !in w.auth.blocked && g.c.fingerprint(h.publicKey) !in w.auth.trusted
  }

  function LimitsAfter(g: Setting, w: World, e: Event, at: int): Limits {
    match e
    case HelloMsg(h, _, allowed, fpAllowed) =>
      w.limits.(hellos := Recorded(w.limits.hellos, h.ip, at, allowed),
                names := Recorded(w.limits.names, h.ip, at, AsksForPlace(g, w, h, allowed) && fpAllowed))
    case Datagram(_, ip, _, udpAllowed) => w.limits.(datagrams := Recorded(w.limits.datagrams, ip, at, udpAllowed))
    case _ => w.limits
  }

  function Next(g: Setting, w: World, e: Event, at: int): World {
    var auth' := AuthAfter(g, w, e, at);
    World(auth', TableAfter(g, w, e, at), at, if e.CleanupTick? then at else w.lastTick,
          if e.HelloMsg? then w.drawn + {e.draw.challenge} else w.drawn,
          w.disclosed + Disclosed(g, w, e, at),
          w.signed + SignedBy(g, e),
          if e.HonestSigns? then w.handshakes + [e.handshake] else w.handshakes,
          w.installs + Installed(g, w, e, at),
          w.accepts + Accepted(g, w, e, at),
          w.grants + Granted(w, e),
          w.everTrusted + auth'.trusted.Keys,
          LimitsAfter(g, w, e, at))
  }

  // -------------------------------------------------------------------------
  // Runs

  /** The message begins with this challenge. */
  predicate BeginsWith(message: Bytes, challenge: Bytes) {
    |message| >= CHALLENGE_LEN && message[..CHALLENGE_LEN] == challenge
  }

  /** Nobody signs a message that begins with a challenge that was drawn but
      has not left the server. */
  predicate NotGuessed(w: World, message: Bytes) {
    |message| >= CHALLENGE_LEN && message[..CHALLENGE_LEN] in w.drawn ==> message[..CHALLENGE_LEN] in w.disclosed
  }

  /** A session that this step installs does not by chance get the key that
      another challenge has led to. */
  predicate NewKeyApart(g: Setting, w: World, e: Event, at: int) {
    forall i, j | i in Installed(g, w, e, at) && j in w.installs && i.key == j.key ::
      i.request.challenge == j.request.challenge
  }

  /** A heartbeat's tag is not by chance right under the keys of two sessions. */
  predicate OneKeyFor(c: Suite, w: World, b: Beat)
    requires b.Valid()
  {
    forall i, j | i in w.installs && j in w.installs && TagVerifies(c, i.key, b) && TagVerifies(c, j.key, b) ::
      i.key == j.key
  }

  /** The verdicts are those of the rule, for all that was let through so far. */
  predicate VerdictsRight(l: Limits, e: Event, at: int) {
    match e
    case HelloMsg(h, _, allowed, fpAllowed) =>
      && allowed == WouldAllow(l.hellos, h.ip, at, RATE_LIMIT_WINDOW, RATE_LIMIT_MAX)
      && fpAllowed == WouldAllow(l.names, h.ip, at, PENDING_FP_WINDOW, PENDING_FP_MAX)
    case Datagram(_, ip, _, udpAllowed) =>
      udpAllowed == WouldAllow(l.datagrams, ip, at, UDP_RATE_LIMIT_WINDOW, UDP_RATE_LIMIT_PACKETS)
    case _ => true
  }

  /** When a step can happen. Time does not go back, and no step comes later
      than `tickGap` after the last cleanup tick. A challenge is 32 fresh bytes
      that nobody has signed before. Signatures cannot be forged: what is
      presented has been made. The rate limiters decide by their rule. Derived keys
      and tags do not collide in the run. */
  predicate Enabled(g: Setting, w: World, e: Event, at: int) {
    && w.now <= at <= w.lastTick + g.tickGap && VerdictsRight(w.limits, e, at)
    && match e
       case HelloMsg(_, draw, _, _) =>
         && |draw.challenge| == CHALLENGE_LEN && draw.challenge !in w.drawn
         && forall s | s in w.signed :: !BeginsWith(s.message, draw.challenge)
       case ResponseMsg(_, signature) => (signature.Some? ==> signature.value in w.signed) && NewKeyApart(g, w, e, at)
       case Datagram(data, _, _, _) => Parse(data).Some? ==> OneKeyFor(g.c, w, Parse(data).value)
       case OtherSigns(s) => s.signer != g.honest && NotGuessed(w, s.message)
       case HonestSigns(h) => NotGuessed(w, ClientBinding(g.c, h))
       case _ => true
  }

  predicate Initial(w: World) {
    && w.auth.pending == map[] && w.auth.order == [] && w.auth.sessions == map[]
    && w.auth.trusted.Keys !! w.auth.blocked.Keys
    && w.table == map[] && w.lastTick == w.now
    && w.drawn == {} && w.disclosed == {} && w.signed == {} && w.handshakes == []
    && w.installs == [] && w.accepts == [] && w.grants == [] && w.everTrusted == w.auth.trusted.Keys
    && w.limits == Limits(map[], map[], map[])
  }

  datatype Step = Step(event: Event, at: int)

  /** A run from a start with an empty memory and any consistent registry. */
  predicate IsRun(g: Setting, steps: seq<Step>, worlds: seq<World>) {
    && |worlds| == |steps| + 1 && Initial(worlds[0])
    && forall k | 0 <= k < |steps| :: Goes(g, worlds[k], steps[k], worlds[k + 1])
  }

  predicate Goes(g: Setting, w: World, s: Step, w': World) {
    && Enabled(g, w, s.event, s.at)
    && w' == Next(g, w, s.event, s.at)
  }

  lemma StepInto(g: Setting, steps: seq<Step>, worlds: seq<World>, k: nat)
    requires IsRun(g, steps, worlds) && 0 < k < |worlds|
    ensures Goes(g, worlds[k - 1], steps[k - 1], worlds[k])
  {
    assert Goes(g, worlds[k - 1], steps[k - 1], worlds[k - 1 + 1]);
  }
}
