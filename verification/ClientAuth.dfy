/** The client's side of the handshake. */
module ClientAuth {
  import opened Wrappers
  import opened Wire
  import opened Crypto
  import opened Server
  import AuthModel
  import KeyAgreement

  // -------------------------------------------------------------------------
  // What the server may send

  datatype Status = Blocked | Rejected | Pending | RateLimited | Error | Challenge | Authenticated | Other

  /** The fields of a challenge that the client cannot do without. */
  datatype Terms = Terms(challenge: Bytes, serverX: Bytes, serverKey: Bytes, serverName: string)

  /** One message; no terms if one of the fields is missing or cannot be read. */
  datatype Message = Message(pong: bool, status: Status, terms: Option<Terms>, signature: Option<Signature>,
                             serverTimeMs: Option<int>)
  {
    /** Ends the wait for the operator. */
    predicate Decisive() {
      !pong && status in {Challenge, Blocked, Rejected, Error}
    }
  }

  datatype Failure =
    | Closed | BlockedByServer | RejectedByOperator | Throttled | ServerError | Unexpected
    | BadTerms | Unsigned | UnknownServer | ForgedServer | NotAccepted | NoKey

  datatype Outcome = Connected(key: Bytes) | Failed(why: Failure)

  // -------------------------------------------------------------------------
  // The handshake as a function of all that comes in

  /** The first message from `i` on that ends the wait, or the end. */
  function FirstDecisive(incoming: seq<Message>, i: nat): (k: nat)
    requires i <= |incoming|
    ensures i <= k <= |incoming| && (forall j | i <= j < k :: !incoming[j].Decisive())
    ensures k < |incoming| ==> incoming[k].Decisive()
    decreases |incoming| - i
  {
    if i == |incoming| || incoming[i].Decisive() then i else FirstDecisive(incoming, i + 1)
  }

  function Refusal(status: Status): Failure {
    match status
    case Blocked => BlockedByServer
    case Rejected => RejectedByOperator
    case RateLimited => Throttled
    case Error => ServerError
    case _ => Unexpected
  }

  /** Where the challenge is that the client answers, or why there is none. */
  datatype Found = At(index: nat) | Nowhere(why: Failure)

  function FindChallenge(incoming: seq<Message>): (f: Found)
    ensures f.At? ==> f.index < |incoming| && incoming[f.index].status == Challenge
  {
    if incoming == [] then Nowhere(Closed)
    else if incoming[0].status == Challenge then At(0)
    else if incoming[0].status == Rejected then Nowhere(Unexpected)
    else if incoming[0].status != Pending then Nowhere(Refusal(incoming[0].status))
    else
      var k := FirstDecisive(incoming, 1);
      if k == |incoming| then Nowhere(Closed)
      else if incoming[k].status == Challenge then At(k)
      else Nowhere(Refusal(incoming[k].status))
  }

  function HandshakeFor(xPriv: Bytes, t: Terms): Handshake {
    Handshake(xPriv, t.challenge, t.serverX)
  }

  /** The checks before the client signs. */
  function Objection(c: Suite, xPriv: Bytes, m: Message, trusts: string -> bool): Option<Failure> {
    if m.terms.None? then Some(BadTerms)
    else if m.signature.None? then Some(Unsigned)
    else if !trusts(m.terms.value.serverName) then Some(UnknownServer)
    else if !Verifies(m.terms.value.serverKey, ClientBinding(c, HandshakeFor(xPriv, m.terms.value)), m.signature.value)
    then Some(ForgedServer)
    else None
  }

  /** The outcome, and what the client signed on the way. */
  function Authentication(c: Suite, me: Bytes, xPriv: Bytes, incoming: seq<Message>, trusts: string -> bool)
    : (Outcome, Option<Signature>)
  {
    match FindChallenge(incoming)
    case Nowhere(why) => (Failed(why), None)
    case At(k) =>
      match Objection(c, xPriv, incoming[k], trusts)
      case Some(why) => (Failed(why), None)
      case None =>
        var h := HandshakeFor(xPriv, incoming[k].terms.value);
        var signed := Some(Signature(me, ClientBinding(c, h)));
        if k + 1 == |incoming| then (Failed(Closed), signed)
        else if incoming[k + 1].status != Authenticated then (Failed(NotAccepted), signed)
        else
          match ClientKeyOf(c, h)
          case None => (Failed(NoKey), signed)
          case Some(key) => (Connected(key), signed)
  }

  // -------------------------------------------------------------------------
  // What it guarantees

  /** The server announced this key, and signed the client's binding with it. */
  predicate Vouched(c: Suite, xPriv: Bytes, incoming: seq<Message>, trusts: string -> bool, h: Handshake) {
    exists m | m in incoming ::
      && m.terms.Some? && h == HandshakeFor(xPriv, m.terms.value) && trusts(m.terms.value.serverName)
      && m.signature == Some(Signature(m.terms.value.serverKey, ClientBinding(c, h)))
  }

  /** The client signs nothing but the binding of one handshake with its own
      ephemeral key, which the announced server key has signed already; and when
      it connects it has signed, was told so, and holds that handshake's key. */
  lemma SignsOnlyWhatIsVouched(c: Suite, me: Bytes, xPriv: Bytes, incoming: seq<Message>, trusts: string -> bool)
    ensures var (outcome, signed) := Authentication(c, me, xPriv, incoming, trusts);
            && (outcome.Connected? ==> signed.Some?)
            && (signed.Some? ==>
                  exists h: Handshake ::
                    && h.xPriv == xPriv && signed.value == Signature(me, ClientBinding(c, h))
                    && Vouched(c, xPriv, incoming, trusts, h)
                    && (outcome.Connected? ==> ClientKeyOf(c, h) == Some(outcome.key)))
  {
    var (outcome, signed) := Authentication(c, me, xPriv, incoming, trusts);
    if signed.Some? {
      var m := incoming[FindChallenge(incoming).index];
      var h := HandshakeFor(xPriv, m.terms.value);
      assert m in incoming;
      assert Vouched(c, xPriv, incoming, trusts, h);
    }
  }

  /** The client and the server hold the same key. In every run of the server:
      when the honest client connects, and a session was installed for what it
      signed, the key it holds is that session's key. */
  lemma BothHoldTheKey(g: Setting, steps: seq<Step>, worlds: seq<World>, k: nat, i: Install,
                       xPriv: Bytes, incoming: seq<Message>, trusts: string -> bool)
    requires g.c.Lawful() && IsRun(g, steps, worlds) && k < |worlds|
    requires i in worlds[k].installs
    requires var (outcome, signed) := Authentication(g.c, g.honest, xPriv, incoming, trusts);
             && outcome.Connected?
             && signed == Some(Signature(g.honest, AuthModel.RequestBinding(g.c, i.request)))
    ensures Authentication(g.c, g.honest, xPriv, incoming, trusts).0 == Connected(i.key)
  {
    KeyAgreement.AlwaysKeyed(g, steps, worlds, k);
    assert KeyAgreement.SoundInstall(g, worlds[k], i);
    var h := HandshakeFor(xPriv, incoming[FindChallenge(incoming).index].terms.value);
    KeyAgreement.HandshakeAgrees(g, worlds[k], h, i);
  }

  // -------------------------------------------------------------------------
  // The handshake completes

  /** The server's offer as a message. */
  function OfferMessage(offer: AuthModel.Offer, serverKey: Bytes, serverName: string): Message {
    Message(false, Challenge,
            if offer.serverX.None? then None
            else Some(Terms(offer.challenge, offer.serverX.value, serverKey, serverName)),
            offer.signature, None)
  }

  function WelcomeMessage(serverTimeMs: int): Message {
    Message(false, Authenticated, None, None, Some(serverTimeMs))
  }

  /** What comes of an honest client's answer, given what the server sends next:
      the server installs the session if the exchange succeeds, whatever that is;
      the client connects, with the same key, only if it is the welcome. */
  predicate Agreed(c: Suite, before: AuthModel.Auth, fp: AuthModel.Fp, outcome: Outcome, after: AuthModel.Auth,
                   verdict: AuthModel.Reply, rest: seq<Message>)
    requires fp in before.pending
  {
    var ok := c.exchange(before.pending[fp].serverPriv, before.pending[fp].clientX).Some?;
    && verdict == (if ok then AuthModel.Authenticated else AuthModel.Error)
    && (ok ==> fp in after.sessions && after.sessions[fp].singleUse == before.pending[fp].allowOnce)
    && (outcome.Connected? <==> ok && rest != [] && rest[0].status == Authenticated)
    && (outcome.Connected? ==> fp in after.sessions && outcome.key == after.sessions[fp].key)
    && (rest == [] ==> outcome == Failed(Closed))
    && (rest != [] && rest[0].status != Authenticated ==> outcome == Failed(NotAccepted))
  }

  /** Nothing in the wait ends it. */
  predicate Waits(waiting: seq<Message>) {
    waiting != [] ==>
      && waiting[0].status == Pending
      && forall j | 1 <= j < |waiting| ::
           waiting[j].pong || waiting[j].status !in {Challenge, Blocked, Rejected, Error}
  }

  lemma FoundAfterWait(waiting: seq<Message>, offer: Message, rest: seq<Message>)
    requires Waits(waiting) && offer.Decisive() && offer.status == Challenge
    ensures FindChallenge(waiting + [offer] + rest) == At(|waiting|)
  {
    var incoming := waiting + [offer] + rest;
    assert incoming[|waiting|] == offer;
    if waiting != [] {
      assert incoming[0] == waiting[0];
      assert forall j | 1 <= j < |waiting| :: incoming[j] == waiting[j];
    }
  }

  /** How a message ends the handshake without an answer: what it says at once, or
      what it says after the wait. */
  function Why(status: Status, waited: bool): Failure {
    match status
    case Blocked => BlockedByServer
    case Error => ServerError
    case Rejected => if waited then RejectedByOperator else Unexpected
    case RateLimited => Throttled
    case _ => Unexpected
  }

  /** Whatever follows, a client that is turned away, at once or after any wait,
      fails for the reason given and has signed nothing. */
  lemma TurnedAway(c: Suite, me: Bytes, xPriv: Bytes, waiting: seq<Message>, m: Message, rest: seq<Message>,
                   trusts: string -> bool)
    requires Waits(waiting)
    requires if waiting == [] then m.status != Challenge && m.status != Pending
             else !m.pong && m.status in {Blocked, Rejected, Error}
    ensures Authentication(c, me, xPriv, waiting + [m] + rest, trusts) == (Failed(Why(m.status, waiting != [])), None)
  {
    var incoming := waiting + [m] + rest;
    assert incoming[|waiting|] == m;
    if waiting != [] {
      assert incoming[0] == waiting[0];
      assert forall j | 1 <= j < |waiting| :: incoming[j] == waiting[j];
      assert FirstDecisive(incoming, 1) == |waiting|;
    }
  }

  /** One that is told nothing more fails when the connection closes. */
  lemma LeftWaiting(c: Suite, me: Bytes, xPriv: Bytes, waiting: seq<Message>, trusts: string -> bool)
    requires Waits(waiting)
    ensures Authentication(c, me, xPriv, waiting, trusts) == (Failed(Closed), None)
  {
  }

  /** Of a challenge that comes at once or after any wait, the client signs the
      binding if and only if the terms are there, the announced server is one it
      trusts, and the announced key has signed challenge, its own key and the
      server's key in a row; otherwise it fails for the first of these reasons. */
  lemma SignsExactly(c: Suite, me: Bytes, xPriv: Bytes, waiting: seq<Message>, m: Message, rest: seq<Message>,
                     trusts: string -> bool)
    requires Waits(waiting) && !m.pong && m.status == Challenge
    ensures var (outcome, signed) := Authentication(c, me, xPriv, waiting + [m] + rest, trusts);
            if m.terms.None? then outcome == Failed(BadTerms) && signed == None
            else if m.signature.None? then outcome == Failed(Unsigned) && signed == None
            else
              var t := m.terms.value;
              var binding := t.challenge + c.publicOf(xPriv) + t.serverX;
              if !trusts(t.serverName) then outcome == Failed(UnknownServer) && signed == None
              else if m.signature != Some(Signature(t.serverKey, binding)) then
                outcome == Failed(ForgedServer) && signed == None
              else
                && signed == Some(Signature(me, binding))
                && (rest == [] ==> outcome == Failed(Closed))
                && (rest != [] && rest[0].status != Authenticated ==> outcome == Failed(NotAccepted))
                && (rest != [] && rest[0].status == Authenticated ==>
                      outcome == match c.exchange(xPriv, t.serverX)
                                 case None => Failed(NoKey)
                                 case Some(shared) => Connected(c.derive(shared, t.challenge)))
  {
    var incoming := waiting + [m] + rest;
    FoundAfterWait(waiting, m, rest);
    assert incoming[|waiting|] == m;
    assert rest != [] ==> incoming[|waiting| + 1] == rest[0];
  }

  /** An honest client that gets the offer for its request, at once or after any
      wait, answers in time, and whatever the server sends after the offer. */
  lemma OfferAnswered(c: Suite, serverKey: Bytes, a: AuthModel.Auth, fp: AuthModel.Fp, xPriv: Bytes,
                      waiting: seq<Message>, rest: seq<Message>, serverName: string, trusts: string -> bool, later: int)
    requires c.Lawful() && fp in a.pending && !a.pending[fp].Expired(later) && trusts(serverName)
    requires |a.pending[fp].publicKey| == KEY_LEN && a.pending[fp].clientX == c.publicOf(xPriv) && Waits(waiting)
    ensures var r := a.pending[fp];
            var offer := OfferMessage(AuthModel.OfferOf(c, serverKey, r), serverKey, serverName);
            var (outcome, signed) := Authentication(c, r.publicKey, xPriv, waiting + [offer] + rest, trusts);
            var (a', reply) := AuthModel.VerifyChallenge(c, a, fp, signed, later);
            Agreed(c, a, fp, outcome, a', reply, rest)
  {
    var r := a.pending[fp];
    var offer := OfferMessage(AuthModel.OfferOf(c, serverKey, r), serverKey, serverName);
    var incoming := waiting + [offer] + rest;
    FoundAfterWait(waiting, offer, rest);
    assert incoming[|waiting|] == offer;
    assert rest != [] ==> incoming[|waiting| + 1] == rest[0];
    assert c.exchange(xPriv, c.publicOf(r.serverPriv)) == c.exchange(r.serverPriv, c.publicOf(xPriv));
  }

  /** What a trusted device's HELLO does: its request is there, fresh, for the
      key it named, and the answer is the offer for it. */
  lemma TrustedHelloOffers(c: Suite, serverKey: Bytes, a: AuthModel.Auth, h: AuthModel.Hello, clientX: Bytes,
                           draw: AuthModel.Fresh, now: int, fpAllowed: bool)
    requires c.Lawful() && KeyAgreement.NamesMatch(c, a.pending) && h.clientKey == AuthModel.Given(clientX)
    requires c.fingerprint(h.publicKey) in a.trusted && c.fingerprint(h.publicKey) !in a.blocked && clientX != []
    ensures var fp := c.fingerprint(h.publicKey);
            var (asked, reply) := AuthModel.HandleHello(c, serverKey, a, h, draw, now, true, fpAllowed);
            && fp in asked.pending && asked.pending[fp].publicKey == h.publicKey && asked.pending[fp].clientX == clientX
            && asked.pending[fp].expires == now + AuthModel.CHALLENGE_TTL
            && reply == AuthModel.Challenge(AuthModel.OfferOf(c, serverKey, asked.pending[fp]))
  {
  }

  lemma OfferedConnects(c: Suite, serverKey: Bytes, a: AuthModel.Auth, fp: AuthModel.Fp, xPriv: Bytes,
                        offered: AuthModel.Offer, rest: seq<Message>, serverName: string, trusts: string -> bool,
                        later: int)
    requires c.Lawful() && fp in a.pending && !a.pending[fp].Expired(later) && trusts(serverName)
    requires |a.pending[fp].publicKey| == KEY_LEN && a.pending[fp].clientX == c.publicOf(xPriv)
    requires offered == AuthModel.OfferOf(c, serverKey, a.pending[fp])
    ensures var offer := OfferMessage(offered, serverKey, serverName);
            var (outcome, signed) := Authentication(c, a.pending[fp].publicKey, xPriv, [offer] + rest, trusts);
            var (after, verdict) := AuthModel.VerifyChallenge(c, a, fp, signed, later);
            Agreed(c, a, fp, outcome, after, verdict, rest)
  {
    var offer := OfferMessage(offered, serverKey, serverName);
    assert [] + [offer] + rest == [offer] + rest;
    OfferAnswered(c, serverKey, a, fp, xPriv, [], rest, serverName, trusts, later);
  }

  /** A trusted device's HELLO is answered with an offer, and its answer to that,
      in time, makes a session with the client's key. */
  lemma TrustedDeviceConnects(c: Suite, serverKey: Bytes, a: AuthModel.Auth, h: AuthModel.Hello, xPriv: Bytes,
                              draw: AuthModel.Fresh, now: int, fpAllowed: bool, rest: seq<Message>, serverName: string,
                              trusts: string -> bool, later: int)
    requires c.Lawful() && KeyAgreement.NamesMatch(c, a.pending) && trusts(serverName)
    requires c.fingerprint(h.publicKey) in a.trusted && c.fingerprint(h.publicKey) !in a.blocked
    requires |h.publicKey| == KEY_LEN && h.clientKey == AuthModel.Given(c.publicOf(xPriv))
    requires later <= now + AuthModel.CHALLENGE_TTL
    ensures var fp := c.fingerprint(h.publicKey);
            var (asked, reply) := AuthModel.HandleHello(c, serverKey, a, h, draw, now, true, fpAllowed);
            && reply.Challenge? && fp in asked.pending
            && var offer := OfferMessage(reply.offer, serverKey, serverName);
               var (outcome, signed) := Authentication(c, h.publicKey, xPriv, [offer] + rest, trusts);
               var (after, verdict) := AuthModel.VerifyChallenge(c, asked, fp, signed, later);
               Agreed(c, asked, fp, outcome, after, verdict, rest)
  {
    var fp := c.fingerprint(h.publicKey);
    var (asked, reply) := AuthModel.HandleHello(c, serverKey, a, h, draw, now, true, fpAllowed);
    TrustedHelloOffers(c, serverKey, a, h, c.publicOf(xPriv), draw, now, fpAllowed);
    OfferedConnects(c, serverKey, asked, fp, xPriv, reply.offer, rest, serverName, trusts, later);
  }

  /** A waiting device that the operator lets in, for good or once, is sent the
      offer, and its answer to that, in time, makes a session that is for one use
      exactly when the device was allowed once. */
  lemma AdmittedDeviceConnects(c: Suite, serverKey: Bytes, a: AuthModel.Auth, fp: AuthModel.Fp, once: bool,
                               xPriv: Bytes, now: int, waiting: seq<Message>, rest: seq<Message>, serverName: string,
                               trusts: string -> bool, later: int)
    requires c.Lawful() && fp in a.pending && a.pending[fp].ws.Some? && !a.pending[fp].allowOnce && now <= later
    requires !a.pending[fp].Expired(later) && trusts(serverName) && |a.pending[fp].publicKey| == KEY_LEN
    requires a.pending[fp].clientX == c.publicOf(xPriv) && waiting != [] && Waits(waiting)
    ensures var admitted := if once then AuthModel.AllowOnce(a, fp) else AuthModel.Approve(a, fp, now);
            var pushed := AuthModel.Push(c, serverKey, admitted, fp, now);
            && pushed.Some? && fp in admitted.pending && admitted.pending[fp].allowOnce == once
            && var offer := OfferMessage(pushed.value, serverKey, serverName);
               var incoming := waiting + [offer] + rest;
               var (outcome, signed) := Authentication(c, a.pending[fp].publicKey, xPriv, incoming, trusts);
               var (after, verdict) := AuthModel.VerifyChallenge(c, admitted, fp, signed, later);
               Agreed(c, admitted, fp, outcome, after, verdict, rest)
  {
    var admitted := if once then AuthModel.AllowOnce(a, fp) else AuthModel.Approve(a, fp, now);
    OfferAnswered(c, serverKey, admitted, fp, xPriv, waiting, rest, serverName, trusts, later);
    assert AuthModel.Push(c, serverKey, admitted, fp, now)
           == Some(AuthModel.OfferOf(c, serverKey, admitted.pending[fp]));
  }

  // -------------------------------------------------------------------------
  // The client, in place

  class AuthService {
    var sessionKey: Option<Bytes>
    var fingerprint: string
    var clockOffsetMs: int

    constructor ()
      ensures sessionKey == None
    {
      sessionKey := None;
      fingerprint := "";
      clockOffsetMs := 0;
    }

    /** The wait for the operator: PONGs and whatever else says nothing are
        skipped. */
    method AwaitOperator(incoming: seq<Message>) returns (found: Found)
      requires incoming != [] && incoming[0].status == Pending
      ensures found == FindChallenge(incoming)
    {
      var i := 1;
      while i < |incoming|
        invariant 1 <= i <= |incoming| && FirstDecisive(incoming, i) == FirstDecisive(incoming, 1)
      {
        var msg := incoming[i];
        if msg.pong {
          i := i + 1;
          continue;
        }
        if msg.status == Challenge {
          return At(i);
        }
        if msg.status == Blocked {
          return Nowhere(BlockedByServer);
        }
        if msg.status == Rejected {
          return Nowhere(RejectedByOperator);
        }
        if msg.status == Error {
          return Nowhere(ServerError);
        }
        i := i + 1;
      }
      found := Nowhere(Closed);
    }

    /** The whole handshake: the function `Authentication`; and a session key
        and a clock offset exactly when the server accepted. What an earlier
        handshake left stays when this one fails. */
    method Authenticate(c: Suite, me: Bytes, xPriv: Bytes, incoming: seq<Message>, trusts: string -> bool,
                        clientTimeMs: int)
      returns (outcome: Outcome, signed: Option<Signature>)
      modifies this
      ensures (outcome, signed) == Authentication(c, me, xPriv, incoming, trusts)
      ensures fingerprint == c.fingerprint(me)
      ensures sessionKey == if outcome.Connected? then Some(outcome.key) else old(sessionKey)
      ensures if outcome.Connected? || outcome == Failed(NoKey)
              then
                var welcome := incoming[FindChallenge(incoming).index + 1];
                clockOffsetMs == if welcome.serverTimeMs.Some? then welcome.serverTimeMs.value - clientTimeMs else 0
              else clockOffsetMs == old(clockOffsetMs)
    {
      fingerprint := c.fingerprint(me);
      signed := None;
      if incoming == [] {
        return Failed(Closed), signed;
      }
      var found;
      match incoming[0].status {
        case Challenge => found := At(0);
        case Pending => found := AwaitOperator(incoming);
        case Blocked => found := Nowhere(BlockedByServer);
        case RateLimited => found := Nowhere(Throttled);
        case Error => found := Nowhere(ServerError);
        case _ => found := Nowhere(Unexpected);
      }
      if found.Nowhere? {
        return Failed(found.why), signed;
      }

      var reply := incoming[found.index];
      if reply.terms.None? {
        return Failed(BadTerms), signed;
      }
      var t := reply.terms.value;
      if reply.signature.None? {
        return Failed(Unsigned), signed;
      }
      if !trusts(t.serverName) {
        return Failed(UnknownServer), signed;
      }
      var binding := t.challenge + c.publicOf(xPriv) + t.serverX;
      if !Verifies(t.serverKey, binding, reply.signature.value) {
        return Failed(ForgedServer), signed;
      }
      signed := Some(Signature(me, binding));

      if found.index + 1 == |incoming| {
        return Failed(Closed), signed;
      }
      var welcome := incoming[found.index + 1];
      if welcome.status != Authenticated {
        return Failed(NotAccepted), signed;
      }
      clockOffsetMs := if welcome.serverTimeMs.Some? then welcome.serverTimeMs.value - clientTimeMs else 0;
      var shared := c.exchange(xPriv, t.serverX);
      if shared.None? {
        return Failed(NoKey), signed;
      }
      var key := c.derive(shared.value, t.challenge);
      sessionKey := Some(key);
      outcome := Connected(key);
    }
  }
}
