/** The server's table of streaming clients: what a heartbeat, a cleanup tick
    and one broadcast round do to it, as functions. */
module StreamModel {
  import opened Wrappers
  import opened Wire
  import opened Crypto
  import opened AuthModel
  import opened Heartbeat

  const CLIENT_TIMEOUT := 30_000
  const MAX_STREAM_CLIENTS := 16
  const MAX_SOCKET_ERRORS_BEFORE_EVICT := 5
  const UDP_RATE_LIMIT_PACKETS := 200
  const UDP_RATE_LIMIT_WINDOW := 1_000

  datatype Client = Client(ip: string, port: nat, key: Bytes, connectedAt: int, framesSent: nat, lastHb: int,
                           deviceName: string, seqNo: nat, sendErrors: nat)

  type Table = map<Fp, Client>

  // -------------------------------------------------------------------------
  // Heartbeats

  datatype Verdict =
    | RateDropped | BadPacket | NoSession | BadTime | BadTag | WrongIp | Replayed
    /** The nonce was taken: the heartbeat is genuine, and the table was full ... */
    | TableFull
    /** ... or has the client. */
    | Streaming

  predicate NonceTaken(v: Verdict) {
    v == TableFull || v == Streaming
  }

  function Pinned(a: Auth, fp: Fp, ip: string): Auth
    requires fp in a.sessions
  {
    if a.sessions[fp].udpIp.None? then a.(sessions := a.sessions[fp := a.sessions[fp].(udpIp := Some(ip))]) else a
  }

  /** The checks up to the tag, against the session. */
  function CheckBeat(c: Suite, s: Session, b: Beat, now: int): Option<Verdict>
    requires b.Valid()
  {
    if !WithinSkew(now, b) then Some(BadTime)
    else if !TagVerifies(c, s.key, b) then Some(BadTag)
    else None
  }

  /** What follows a valid tag: pin the address, or hold the sender to it; then
      the nonce. */
  function AdmitBeat(a: Auth, b: Beat, ip: string): (Auth, Option<Verdict>)
    requires b.name in a.sessions
  {
    var pinned := Pinned(a, b.name, ip);
    if pinned.sessions[b.name].udpIp != Some(ip) then (pinned, Some(WrongIp))
    else if b.nonce in pinned.sessions[b.name].usedNonces then (pinned, Some(Replayed))
    else (AddNonce(pinned, b.name, b.nonce), None)
  }

  /** `get_session_device_name(fp) or "Unknown"`. */
  function ShownName(s: Session): string {
    if s.deviceName == "" then "Unknown" else s.deviceName
  }

  function Register(t: Table, fp: Fp, s: Session, ip: string, port: nat, now: int): (Table, Verdict) {
    if fp in t then (t[fp := t[fp].(lastHb := now, ip := ip, port := port, key := s.key)], Streaming)
    else if |t| >= MAX_STREAM_CLIENTS then (t, TableFull)
    else (t[fp := Client(ip, port, s.key, now, 0, now, ShownName(s), 0, 0)], Streaming)
  }

  function OnBeat(c: Suite, a: Auth, t: Table, b: Beat, ip: string, port: nat, now: int): (Auth, Table, Verdict)
    requires b.Valid()
  {
    var live := Touch(a, b.name, now);
    if !HasSession(live, b.name, now) then (live, t, NoSession)
    else
      match CheckBeat(c, live.sessions[b.name], b, now)
      case Some(v) => (live, t, v)
      case None =>
        var (admitted, refusal) := AdmitBeat(live, b, ip);
        match refusal
        case Some(v) => (admitted, t, v)
        case None =>
          var (t', v) := Register(t, b.name, admitted.sessions[b.name], ip, port, now);
          (admitted, t', v)
  }

  /** `allowed` is the verdict of the UDP rate limiter. */
  function OnHeartbeat(c: Suite, a: Auth, t: Table, data: Bytes, ip: string, port: nat, now: int, allowed: bool)
    : (Auth, Table, Verdict)
  {
    if !allowed then (a, t, RateDropped)
    else
      match Parse(data)
      case None => (a, t, BadPacket)
      case Some(b) => OnBeat(c, a, t, b, ip, port, now)
  }

  // -------------------------------------------------------------------------
  // What a heartbeat can change

  /** All that a heartbeat does to a session: it may pin an address that was not
      pinned, and it may take a nonce. */
  predicate Evolves(s: Session, s': Session) {
    && s' == s.(udpIp := s'.udpIp, usedNonces := s'.usedNonces)
    && (s.udpIp.Some? ==> s'.udpIp == s.udpIp)
  }

  /** The state before and after a heartbeat from `fp`: no other session, and
      nothing else, is touched. */
  predicate BeatFrame(a: Auth, a': Auth, fp: Fp) {
    && a' == a.(sessions := a'.sessions)
    && (forall k | k in a'.sessions :: k in a.sessions && Evolves(a.sessions[k], a'.sessions[k]))
    && (forall k | k in a.sessions && k != fp :: k in a'.sessions && a'.sessions[k] == a.sessions[k])
  }

  lemma AdmitFrame(a: Auth, b: Beat, ip: string)
    requires b.name in a.sessions
    ensures var (a', refusal) := AdmitBeat(a, b, ip);
            && BeatFrame(a, a', b.name) && b.name in a'.sessions
            && (refusal == None ==>
                  && a'.sessions[b.name].udpIp == Some(ip)
                  && b.nonce !in a.sessions[b.name].usedNonces
                  && a'.sessions[b.name].usedNonces == AppendBounded(a.sessions[b.name].usedNonces, b.nonce))
            && (refusal.Some? ==>
                  a'.sessions[b.name].usedNonces == a.sessions[b.name].usedNonces && !NonceTaken(refusal.value))
  {
  }

  /** All that taking a nonce is. */
  predicate TookNonce(c: Suite, a: Auth, b: Beat, ip: string, now: int, a': Auth)
    requires b.Valid()
  {
    && HasSession(a, b.name, now) && b.name in a'.sessions
    && WithinSkew(now, b) && TagVerifies(c, a.sessions[b.name].key, b)
    && b.nonce !in a.sessions[b.name].usedNonces
    && a'.sessions[b.name].usedNonces == AppendBounded(a.sessions[b.name].usedNonces, b.nonce)
    && a'.sessions[b.name].udpIp == Some(ip)
    && BeatFrame(a, a', b.name)
  }

  /** And all that a refusal is. */
  predicate LeftNonces(a: Auth, fp: Fp, a': Auth) {
    BeatFrame(a, a', fp) && forall k | k in a'.sessions :: a'.sessions[k].usedNonces == a.sessions[k].usedNonces
  }

  lemma StoppedBeat(c: Suite, a: Auth, t: Table, b: Beat, ip: string, port: nat, now: int)
    requires b.Valid() && (HasSession(a, b.name, now) ==> CheckBeat(c, a.sessions[b.name], b, now).Some?)
    ensures var (a', t', v) := OnBeat(c, a, t, b, ip, port, now);
            !NonceTaken(v) && t' == t && LeftNonces(a, b.name, a')
  {
  }

  lemma CheckedBeat(c: Suite, a: Auth, t: Table, b: Beat, ip: string, port: nat, now: int)
    requires b.Valid() && HasSession(a, b.name, now) && CheckBeat(c, a.sessions[b.name], b, now) == None
    ensures var (a', t', v) := OnBeat(c, a, t, b, ip, port, now);
            if NonceTaken(v)
            then
              && TookNonce(c, a, b, ip, now, a')
              && (t', v) == Register(t, b.name, a'.sessions[b.name], ip, port, now)
            else t' == t && LeftNonces(a, b.name, a')
  {
    AdmitFrame(a, b, ip);
  }

  /** A heartbeat takes its nonce only when every check of the session has
      passed; otherwise it leaves every nonce history as it was. */
  lemma BeatEffect(c: Suite, a: Auth, t: Table, b: Beat, ip: string, port: nat, now: int)
    requires b.Valid()
    ensures var (a', t', v) := OnBeat(c, a, t, b, ip, port, now);
            if NonceTaken(v)
            then
              && TookNonce(c, a, b, ip, now, a')
              && (t', v) == Register(t, b.name, a'.sessions[b.name], ip, port, now)
            else t' == t && LeftNonces(a, b.name, a')
  {
    if HasSession(a, b.name, now) && CheckBeat(c, a.sessions[b.name], b, now) == None {
      CheckedBeat(c, a, t, b, ip, port, now);
    } else {
      StoppedBeat(c, a, t, b, ip, port, now);
    }
  }

  // -------------------------------------------------------------------------
  // Cleanup, and clients that go

  function Silent(t: Table, now: int): set<Fp> {
    set fp | fp in t && now - t[fp].lastHb > CLIENT_TIMEOUT
  }

  /** `remove_session_if_single_use` for each of the names. */
  function RemoveSingleUse(a: Auth, fps: set<Fp>): Auth {
    a.(sessions := map fp | fp in a.sessions && !(fp in fps && a.sessions[fp].singleUse) :: a.sessions[fp])
  }

  function Cleanup(a: Auth, t: Table, now: int): (Auth, Table) {
    (RemoveSingleUse(a, Silent(t, now)), t - Silent(t, now))
  }

  // -------------------------------------------------------------------------
  // Broadcast

  /** How one client's turn in a round ends. */
  datatype Turn = Sent | Failed | Skipped

  function AfterTurn(c: Client, turn: Turn): Client {
    match turn
    case Sent => c.(seqNo := c.seqNo + 1, framesSent := c.framesSent + 1, sendErrors := 0)
    case Failed => c.(sendErrors := c.sendErrors + 1)
    case Skipped => c
  }

  function TurnOf(turns: map<Fp, Turn>, fp: Fp): Turn {
    if fp in turns then turns[fp] else Skipped
  }

  function AfterTurns(t: Table, turns: map<Fp, Turn>): Table {
    map fp | fp in t :: AfterTurn(t[fp], TurnOf(turns, fp))
  }

  /** Clients whose turn failed once too often. */
  function Worn(t: Table, turns: map<Fp, Turn>): set<Fp> {
    set fp | fp in t && TurnOf(turns, fp) == Failed && t[fp].sendErrors + 1 >= MAX_SOCKET_ERRORS_BEFORE_EVICT
  }

  function Round(a: Auth, t: Table, turns: map<Fp, Turn>): (Auth, Table) {
    (RemoveSingleUse(a, Worn(t, turns)), AfterTurns(t, turns) - Worn(t, turns))
  }

  /** `remove_client`: the session goes too, but only if the client was there. */
  function RemoveClient(a: Auth, t: Table, fp: Fp): (Auth, Table) {
    if fp in t then (RemoveSession(a, fp), t - {fp}) else (a, t)
  }
}
