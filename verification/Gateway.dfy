/** What the web server makes of the messages on an authentication socket and
    of the operator's device routes; and that each of them is a step of the
    server's state machine. */
module Gateway {
  import opened Wrappers
  import opened Wire
  import opened Crypto
  import opened AuthModel
  import opened AuthServer
  import opened StreamServer
  import Machine = Server

  // -------------------------------------------------------------------------
  // One socket

  /** A socket: its number, the address behind it, the device it authenticated
      and the one it is waiting for. */
  datatype Socket = Socket(id: nat, ip: string, authed: Option<Fp>, waiting: Option<Fp>)

  datatype Message =
    | NotJson | NotObject
    | HelloMessage(deviceId: string, deviceName: string, publicKey: Option<Bytes>, clientKey: ClientKey)
    | ResponseMessage(name: Option<Fp>, signature: Option<Signature>)
    | PingMessage
    | UnknownMessage

  datatype Answer = Replied(reply: Reply) | InvalidJson | ExpectedObject | Fault | Pong | Silence

  function HelloOf(s: Socket, m: Message): Hello
    requires m.HelloMessage? && m.publicKey.Some?
  {
    Hello(m.deviceId, m.deviceName, m.publicKey.value, s.ip, m.clientKey, Some(s.id))
  }

  function AfterHello(c: Suite, s: Socket, h: Hello, reply: Reply): Socket {
    if reply == IsPending then s.(waiting := Some(c.fingerprint(h.publicKey))) else s
  }

  function AfterResponse(s: Socket, fp: Fp, reply: Reply): Socket {
    if reply == Authenticated then s.(authed := Some(fp), waiting := None) else s
  }

  /** A field that is not there raises, before anything is asked of the
      authentication service. */
  function Dispatch(c: Suite, serverKey: Bytes, a: Auth, s: Socket, m: Message, draw: Fresh, now: int, v: Verdicts)
    : (Auth, Socket, Answer)
  {
    match m
    case NotJson => (a, s, InvalidJson)
    case NotObject => (a, s, ExpectedObject)
    case HelloMessage(_, _, publicKey, _) =>
      if publicKey.None? then (a, s, Fault)
      else
        var h := HelloOf(s, m);
        var (a', reply) := HandleHello(c, serverKey, a, h, draw, now, v.hello, v.newName);
        (a', AfterHello(c, s, h, reply), if reply == InternalError then Fault else Replied(reply))
    case ResponseMessage(name, signature) =>
      if name.None? then (a, s, Fault)
      else
        var (a', reply) := VerifyChallenge(c, a, name.value, signature, now);
        (a', AfterResponse(s, name.value, reply), Replied(reply))
    case PingMessage => (if s.waiting.Some? then Ping(a, s.waiting.value, now) else a, s, Pong)
    case UnknownMessage => (a, s, Silence)
  }

  /** Whatever ends the loop: a single-use session ends with its socket. */
  function Hangup(a: Auth, s: Socket): Auth {
    if s.authed.Some? then RemoveIfSingleUse(a, s.authed.value) else a
  }

  // -------------------------------------------------------------------------
  // Every message is a step of the machine

  /** The machine's event for a message, if it touches the service at all. */
  function EventOf(s: Socket, m: Message, draw: Fresh, v: Verdicts): Option<Machine.Event> {
    match m
    case HelloMessage(_, _, publicKey, _) =>
      if publicKey.None? then None else Some(Machine.HelloMsg(HelloOf(s, m), draw, v.hello, v.newName))
    case ResponseMessage(name, signature) =>
      if name.None? then None else Some(Machine.ResponseMsg(name.value, signature))
    case PingMessage => if s.waiting.Some? then Some(Machine.PingMsg(s.waiting.value)) else None
    case _ => None
  }

  /** The state after a message is the machine's; the challenge in an answer is
      one the machine has on record as disclosed; and the socket counts as
      authenticated exactly when the machine has installed a session. */
  lemma MessageIsStep(g: Machine.Setting, w: Machine.World, s: Socket, m: Message, draw: Fresh, now: int, v: Verdicts)
    ensures var (a', s', answer) := Dispatch(g.c, g.serverKey, w.auth, s, m, draw, now, v);
            match EventOf(s, m, draw, v)
            case None => a' == w.auth && s' == s && !answer.Replied?
            case Some(e) =>
              && a' == Machine.AuthAfter(g, w, e, now) && w.table == Machine.TableAfter(g, w, e, now)
              && (answer.Replied? && answer.reply.Challenge? ==>
                    answer.reply.offer.challenge in Machine.Disclosed(g, w, e, now))
              && (Machine.Installed(g, w, e, now) != [] <==> answer == Replied(Authenticated))
              && (answer == Replied(Authenticated) ==> s'.authed == Some(Machine.Installed(g, w, e, now)[0].fp))
  {
  }

  /** After a socket is gone, the device it authenticated has no single-use
      session, whichever socket that came by; other sessions stay. */
  lemma CloseIsStep(g: Machine.Setting, w: Machine.World, s: Socket, now: int)
    ensures s.authed.Some? ==> Hangup(w.auth, s) == Machine.AuthAfter(g, w, Machine.SocketClosed(s.authed.value), now)
    ensures forall fp | fp in w.auth.sessions ::
              fp in Hangup(w.auth, s).sessions <==> s.authed != Some(fp) || !w.auth.sessions[fp].singleUse
  {
  }

  // -------------------------------------------------------------------------
  // What a socket remembers

  /** What a HELLO that is answered `pending` leaves: a request with what the
      message said and where the socket is, good for a minute, and a socket that
      waits for it. */
  lemma HelloIsFiled(c: Suite, serverKey: Bytes, a: Auth, s: Socket, m: Message, draw: Fresh, now: int, v: Verdicts)
    requires m.HelloMessage? && Dispatch(c, serverKey, a, s, m, draw, now, v).2 == Replied(IsPending)
    ensures m.publicKey.Some? && m.clientKey.Given?
    ensures var (a', s', answer) := Dispatch(c, serverKey, a, s, m, draw, now, v);
            var fp := c.fingerprint(m.publicKey.value);
            && s' == s.(waiting := Some(fp)) && fp in a'.pending
            && a'.pending[fp] == Request(m.deviceId, m.deviceName, m.publicKey.value, s.ip, now, draw.challenge,
                                         now + 60_000, draw.serverPriv, m.clientKey.bytes, false, Some(s.id))
  {
  }

  /** A PING is always answered, and gives the request that the socket waits for,
      if it is still there, another minute. */
  lemma PingIsAnswered(c: Suite, serverKey: Bytes, a: Auth, s: Socket, draw: Fresh, now: int, v: Verdicts)
    ensures var (a', s', answer) := Dispatch(c, serverKey, a, s, PingMessage, draw, now, v);
            && answer == Pong && s' == s && a' == a.(pending := a'.pending) && a'.pending.Keys == a.pending.Keys
            && forall fp | fp in a.pending ::
                 a'.pending[fp]
                 == if s.waiting == Some(fp) then a.pending[fp].(expires := now + 60_000) else a.pending[fp]
  {
  }

  /** What cannot be understood is answered, or passed over, and changes nothing. */
  lemma NonsenseAnswered(c: Suite, serverKey: Bytes, a: Auth, s: Socket, m: Message, draw: Fresh, now: int, v: Verdicts)
    ensures var (a', s', answer) := Dispatch(c, serverKey, a, s, m, draw, now, v);
            && (answer == InvalidJson <==> m == NotJson)
            && (answer == ExpectedObject <==> m == NotObject)
            && (answer == Silence <==> m == UnknownMessage)
            && (answer in {InvalidJson, ExpectedObject, Silence, Fault} ==> a' == a && s' == s)
            && (Covered(a) ==> (answer == Fault <==>
                  (m.HelloMessage? && m.publicKey.None?) || (m.ResponseMessage? && m.name.None?)))
  {
    if |a.pending| >= MAX_PENDING && Covered(a) {
      FullQueueHasHead(a);
    }
  }

  /** One message, and the state of the service when it is read, whatever other
      sockets have done to it. */
  datatype Exchange = Exchange(auth: Auth, message: Message, draw: Fresh, now: int, verdicts: Verdicts)

  predicate Exchanged(c: Suite, serverKey: Bytes, x: Exchange, s: Socket, s': Socket, answer: Answer) {
    var d := Dispatch(c, serverKey, x.auth, s, x.message, x.draw, x.now, x.verdicts);
    d.1 == s' && d.2 == answer
  }

  /** All that is said on one socket. */
  predicate Conversation(c: Suite, serverKey: Bytes, xs: seq<Exchange>, sockets: seq<Socket>, answers: seq<Answer>) {
    && |sockets| == |xs| + 1 && |answers| == |xs| && sockets[0].authed == None && sockets[0].waiting == None
    && forall i | 0 <= i < |xs| :: Exchanged(c, serverKey, xs[i], sockets[i], sockets[i + 1], answers[i])
  }

  predicate ToldToWait(c: Suite, x: Exchange, answer: Answer, fp: Fp) {
    && x.message.HelloMessage? && x.message.publicKey.Some? && c.fingerprint(x.message.publicKey.value) == fp
    && answer == Replied(IsPending)
  }

  predicate Welcomed(x: Exchange, answer: Answer, fp: Fp) {
    x.message.ResponseMessage? && x.message.name == Some(fp) && answer == Replied(Authenticated)
  }

  lemma OneExchange(c: Suite, serverKey: Bytes, x: Exchange, s: Socket, s': Socket, answer: Answer, fp: Fp)
    requires Exchanged(c, serverKey, x, s, s', answer)
    ensures s'.id == s.id && s'.ip == s.ip
    ensures s'.waiting == Some(fp) <==>
            || ToldToWait(c, x, answer, fp)
            || (s.waiting == Some(fp) && answer != Replied(IsPending) && answer != Replied(Authenticated))
    ensures s'.authed == Some(fp) <==>
            Welcomed(x, answer, fp) || (s.authed == Some(fp) && answer != Replied(Authenticated))
  {
  }

  /** The socket waits for a device exactly since it was last told to wait under
      that name, and counts as authenticated exactly as the last device that was
      welcomed on it. */
  lemma {:induction false} SocketRemembers(c: Suite, serverKey: Bytes, xs: seq<Exchange>, sockets: seq<Socket>,
                                           answers: seq<Answer>, k: nat, fp: Fp)
    requires Conversation(c, serverKey, xs, sockets, answers) && k <= |xs|
    ensures sockets[k].id == sockets[0].id && sockets[k].ip == sockets[0].ip
    ensures sockets[k].waiting == Some(fp) <==>
            exists i | 0 <= i < k :: ToldToWait(c, xs[i], answers[i], fp)
              && forall j | i < j < k :: answers[j] != Replied(IsPending) && answers[j] != Replied(Authenticated)
    ensures sockets[k].authed == Some(fp) <==>
            exists i | 0 <= i < k :: Welcomed(xs[i], answers[i], fp)
              && forall j | i < j < k :: answers[j] != Replied(Authenticated)
  {
    if k > 0 {
      SocketRemembers(c, serverKey, xs, sockets, answers, k - 1, fp);
      assert Exchanged(c, serverKey, xs[k - 1], sockets[k - 1], sockets[k - 1 + 1], answers[k - 1]);
      OneExchange(c, serverKey, xs[k - 1], sockets[k - 1], sockets[k], answers[k - 1], fp);
    }
  }

  class AuthSocket {
    const auth: AuthService
    const id: nat
    const ip: string
    var authed: Option<Fp>
    var waiting: Option<Fp>

    ghost function View(): Socket
      reads this
    {
      Socket(id, ip, authed, waiting)
    }

    ghost predicate Valid()
      reads this, auth.Repr()
    {
      this !in auth.Repr() && auth.Valid()
    }

    constructor (auth: AuthService, id: nat, ip: string)
      requires auth.Valid()
      ensures Valid() && fresh(this) && this.auth == auth && View() == Socket(id, ip, None, None)
    {
      this.auth := auth;
      this.id := id;
      this.ip := ip;
      authed := None;
      waiting := None;
    }

    /** One turn of the dispatch loop. */
    method OnMessage(m: Message, draw: Fresh, now: int) returns (answer: Answer)
      requires Valid() && auth.NotBefore(now)
      modifies this, auth.Repr()
      ensures Valid() && auth.NotBefore(now)
      ensures (auth.State(), View(), answer)
              == Dispatch(auth.c, auth.serverKey, old(auth.State()), old(View()), m, draw, now, old(auth.Rule(ip, now)))
    {
      match m
      case NotJson => answer := InvalidJson;
      case NotObject => answer := ExpectedObject;
      case HelloMessage(deviceId, deviceName, publicKey, clientKey) =>
        if publicKey.None? {
          return Fault;
        }
        var h := Hello(deviceId, deviceName, publicKey.value, ip, clientKey, Some(id));
        var reply := auth.HandleHello(h, draw, now);
        if reply == IsPending {
          waiting := Some(auth.c.fingerprint(publicKey.value));
        }
        answer := Replied(reply);
      case ResponseMessage(name, signature) =>
        if name.None? {
          return Fault;
        }
        var reply := auth.VerifyChallenge(name.value, signature, now);
        if reply == Authenticated {
          authed := name;
          waiting := None;
        }
        answer := Replied(reply);
      case PingMessage =>
        if waiting.Some? {
          auth.RefreshPending(waiting.value, now);
        }
        answer := Pong;
      case UnknownMessage => answer := Silence;
    }

    method Close()
      requires Valid()
      modifies auth
      ensures Valid() && auth.State() == Hangup(old(auth.State()), View())
    {
      if authed.Some? {
        auth.RemoveSessionIfSingleUse(authed.value);
      }
    }
  }

  // -------------------------------------------------------------------------
  // The operator's routes

  class Dashboard {
    const auth: AuthService
    const stream: StreamService

    ghost predicate Valid()
      reads stream.Repr()
    {
      stream.auth == auth && stream.Valid()
    }

    constructor (stream: StreamService)
      requires stream.Valid()
      ensures Valid() && this.stream == stream
    {
      this.stream := stream;
      auth := stream.auth;
    }

    /** `DELETE /api/devices/trusted/{fp}` */
    method RemoveTrust(fp: Fp)
      requires Valid()
      modifies auth, auth.reg
      ensures Valid() && auth.State() == AuthModel.RemoveTrust(old(auth.State()), fp)
      ensures stream.clients == old(stream.clients)
    {
      auth.RemoveSession(fp);
      auth.reg.RemoveTrusted(fp);
    }

    /** `POST /api/devices/trusted/{fp}/block` */
    method BlockTrusted(fp: Fp, now: int)
      requires Valid()
      modifies auth, auth.reg
      ensures Valid() && auth.State() == Block(old(auth.State()), fp, now)
      ensures stream.clients == old(stream.clients)
    {
      var ok := auth.BlockPermanently(fp, now);
    }

    /** `POST /api/devices/blocked/{fp}/unblock` */
    method UnblockDevice(fp: Fp)
      requires Valid()
      modifies auth.reg
      ensures Valid() && auth.State() == Unblock(old(auth.State()), fp)
    {
      auth.reg.RemoveBlocked(fp);
    }

    /** `POST /api/devices/blocked/{fp}/trust` */
    method TrustBlocked(fp: Fp, now: int)
      requires Valid()
      modifies auth.reg
      ensures Valid() && auth.State() == AuthModel.TrustBlocked(old(auth.State()), fp, now)
    {
      if fp in auth.reg.blocked {
        var b := auth.reg.blocked[fp];
        auth.reg.RemoveBlocked(fp);
        auth.reg.SaveTrusted(fp, Identity(b.deviceId, b.deviceName, b.publicKey, b.lastIp), now);
      }
    }

    /** `POST /api/devices/{fp}/disconnect` */
    method RemoveDevice(fp: Fp) returns (removed: bool)
      requires Valid()
      modifies stream`clients, auth
      ensures Valid() && removed == (fp in old(stream.clients))
      ensures stream.clients == old(stream.clients) - {fp}
      ensures auth.State() == RemoveSession(old(auth.State()), fp)
    {
      removed := stream.RemoveClient(fp);
      auth.RemoveSession(fp);
    }
  }
}
