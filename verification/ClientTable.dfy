/** The table of streaming clients over whole runs. */
module ClientTable {
  import opened Wrappers
  import opened Wire
  import opened Crypto
  import opened AuthModel
  import opened Heartbeat
  import opened StreamModel
  import opened Server
  import Grants
  import Replay

  // -------------------------------------------------------------------------
  // Sessions and their installs

  predicate InstalledAt(w: World, key: Bytes, fp: Fp, at: int) {
    exists i | i in w.installs :: i.key == key && i.fp == fp && i.at == at
  }

  /** A session expires one lifetime after its install. */
  predicate SessionsTimed(w: World) {
    forall fp | fp in w.auth.sessions ::
      InstalledAt(w, w.auth.sessions[fp].key, fp, w.auth.sessions[fp].expiresAt - SESSION_TTL)
  }

  lemma StillInstalled(g: Setting, w: World, e: Event, at: int, key: Bytes, fp: Fp, t: int)
    requires InstalledAt(w, key, fp, t)
    ensures InstalledAt(Next(g, w, e, at), key, fp, t)
  {
    var i :| i in w.installs && i.key == key && i.fp == fp && i.at == t;
    assert i in Next(g, w, e, at).installs;
  }

  lemma NextKeepsTimed(g: Setting, w: World, e: Event, at: int)
    requires Enabled(g, w, e, at) && SessionsTimed(w)
    ensures SessionsTimed(Next(g, w, e, at))
  {
    var w' := Next(g, w, e, at);
    Grants.InstallEffect(g, w, e, at);
    Grants.SessionsEffect(g, w, e, at);
    forall fp | fp in w'.auth.sessions
      ensures InstalledAt(w', w'.auth.sessions[fp].key, fp, w'.auth.sessions[fp].expiresAt - SESSION_TTL)
    {
      if w'.installs != w.installs && fp == w'.installs[|w.installs|].fp {
        assert w'.installs[|w.installs|] in w'.installs;
      } else {
        StillInstalled(g, w, e, at, w.auth.sessions[fp].key, fp, w.auth.sessions[fp].expiresAt - SESSION_TTL);
      }
    }
  }

  // -------------------------------------------------------------------------
  // The table by itself

  /** A client's own numbers: nothing sent is lost from the count, and it has
      not failed too often in a row. */
  predicate Sound(c: Client) {
    c.seqNo == c.framesSent && c.sendErrors < MAX_SOCKET_ERRORS_BEFORE_EVICT
  }

  predicate Bounded(t: Table) {
    |t| <= MAX_STREAM_CLIENTS && forall fp | fp in t :: Sound(t[fp])
  }

  lemma FewerClients(t: Table, t': Table)
    requires t'.Keys <= t.Keys
    ensures |t'| <= |t|
  {
    assert t.Keys == t'.Keys + (t.Keys - t'.Keys);
    assert |t.Keys| == |t'.Keys| + |t.Keys - t'.Keys|;
  }

  lemma UpdateKeepsBounded(t: Table, fp: Fp, c: Client)
    requires Bounded(t) && fp in t && Sound(c)
    ensures Bounded(t[fp := c])
  {
    assert t[fp := c].Keys == t.Keys;
  }

  lemma InsertKeepsBounded(t: Table, fp: Fp, c: Client)
    requires Bounded(t) && fp !in t && |t| < MAX_STREAM_CLIENTS && Sound(c)
    ensures Bounded(t[fp := c])
  {
    assert t[fp := c].Keys == t.Keys + {fp};
  }

  lemma RegisterKeepsBounded(t: Table, fp: Fp, s: Session, ip: string, port: nat, now: int)
    requires Bounded(t)
    ensures Bounded(Register(t, fp, s, ip, port, now).0)
  {
    if fp in t {
      UpdateKeepsBounded(t, fp, t[fp].(lastHb := now, ip := ip, port := port, key := s.key));
    } else if |t| < MAX_STREAM_CLIENTS {
      InsertKeepsBounded(t, fp, Client(ip, port, s.key, now, 0, now, ShownName(s), 0, 0));
    }
  }

  lemma RoundKeepsBounded(a: Auth, t: Table, turns: map<Fp, Turn>)
    requires Bounded(t)
    ensures Bounded(Round(a, t, turns).1)
  {
    FewerClients(t, Round(a, t, turns).1);
  }

  /** A cleanup tick removes exactly the clients not heard from for longer than
      the timeout. */
  lemma CleanupIsExact(a: Auth, t: Table, now: int, fp: Fp)
    requires fp in t
    ensures fp in Cleanup(a, t, now).1 <==> now - t[fp].lastHb <= CLIENT_TIMEOUT
    ensures fp in Cleanup(a, t, now).1 ==> Cleanup(a, t, now).1[fp] == t[fp]
  {
  }

  lemma NextKeepsBounded(g: Setting, w: World, e: Event, at: int)
    requires Bounded(w.table)
    ensures Bounded(TableAfter(g, w, e, at))
  {
    match e
    case Datagram(data, ip, port, ok) =>
      if ok && Parse(data).Some? {
        var b := Parse(data).value;
        BeatEffect(g.c, w.auth, w.table, b, ip, port, at);
        if NonceTaken(OnBeat(g.c, w.auth, w.table, b, ip, port, at).2) {
          var session := OnBeat(g.c, w.auth, w.table, b, ip, port, at).0.sessions[b.name];
          RegisterKeepsBounded(w.table, b.name, session, ip, port, at);
        }
      }
    case BroadcastRound(turns) => RoundKeepsBounded(w.auth, w.table, turns);
    case CleanupTick => FewerClients(w.table, TableAfter(g, w, e, at));
    case DisconnectCmd(_) => FewerClients(w.table, TableAfter(g, w, e, at));
    case _ =>
  }

  // -------------------------------------------------------------------------
  // The table and the sessions

  /** A client is there on the strength of a heartbeat: it was heard from since
      the timeout before the last tick, and at that time a session of its name,
      with its key, was not expired. */
  predicate Earned(w: World, fp: Fp, c: Client) {
    && w.lastTick - CLIENT_TIMEOUT <= c.lastHb <= w.now
    && exists i | i in w.installs :: i.fp == fp && i.key == c.key && c.lastHb - SESSION_TTL <= i.at
  }

  /** If the client's key is that of its current session, its address is the
      one the session is pinned to. */
  predicate PinnedAddress(w: World, fp: Fp, c: Client) {
    fp in w.auth.sessions && w.auth.sessions[fp].key == c.key ==> w.auth.sessions[fp].udpIp == Some(c.ip)
  }

  predicate TableEarned(w: World) {
    && w.lastTick <= w.now
    && forall fp | fp in w.table :: Earned(w, fp, w.table[fp]) && PinnedAddress(w, fp, w.table[fp])
  }

  /** An entry that a heartbeat has just made or refreshed. */
  predicate JustHeard(a: Auth, fp: Fp, at: int, c: Client, a': Auth) {
    && c.lastHb == at && fp in a.sessions && fp in a'.sessions && !a.sessions[fp].Expired(at)
    && c.key == a.sessions[fp].key && a'.sessions[fp].udpIp == Some(c.ip)
  }

  /** A client after a step is an old one with the same address, key and last
      heartbeat, or one that has just been heard. */
  predicate ClientFollows(w: World, e: Event, at: int, fp: Fp, c: Client, w': World) {
    || (fp in w.table && c.ip == w.table[fp].ip && c.key == w.table[fp].key && c.lastHb == w.table[fp].lastHb
        && (e.CleanupTick? ==> at - c.lastHb <= CLIENT_TIMEOUT))
    || (e.Datagram? && JustHeard(w.auth, fp, at, c, w'.auth))
  }

  /** What one more registration leaves. */
  lemma RegisterEffect(t: Table, name: Fp, s: Session, ip: string, port: nat, now: int)
    ensures var t' := Register(t, name, s, ip, port, now).0;
            forall fp | fp in t' ::
              if fp == name && (fp !in t || t' != t) then t'[fp].ip == ip && t'[fp].key == s.key && t'[fp].lastHb == now
              else fp in t && t'[fp] == t[fp]
  {
  }

  lemma BeatEntries(c: Suite, a: Auth, t: Table, b: Beat, ip: string, port: nat, now: int)
    requires b.Valid()
    ensures var (a', t', v) := OnBeat(c, a, t, b, ip, port, now);
            forall fp | fp in t' :: (fp in t && t'[fp] == t[fp]) || JustHeard(a, fp, now, t'[fp], a')
  {
    BeatEffect(c, a, t, b, ip, port, now);
    var (a', t', v) := OnBeat(c, a, t, b, ip, port, now);
    if NonceTaken(v) {
      RegisterEffect(t, b.name, a'.sessions[b.name], ip, port, now);
    }
  }

  lemma BeatTable(g: Setting, w: World, e: Event, at: int)
    requires e.Datagram?
    ensures var w' := Next(g, w, e, at);
            forall fp | fp in w'.table :: ClientFollows(w, e, at, fp, w'.table[fp], w')
  {
    if e.udpAllowed && Parse(e.data).Some? {
      BeatEntries(g.c, w.auth, w.table, Parse(e.data).value, e.ip, e.port, at);
    }
  }

  lemma OtherTable(g: Setting, w: World, e: Event, at: int)
    requires !e.Datagram?
    ensures var t' := TableAfter(g, w, e, at);
            forall fp | fp in t' ::
              && fp in w.table && t'[fp].ip == w.table[fp].ip && t'[fp].key == w.table[fp].key
              && t'[fp].lastHb == w.table[fp].lastHb && (e.CleanupTick? ==> at - t'[fp].lastHb <= CLIENT_TIMEOUT)
  {
  }

  lemma TableEffect(g: Setting, w: World, e: Event, at: int)
    ensures var w' := Next(g, w, e, at);
            forall fp | fp in w'.table :: ClientFollows(w, e, at, fp, w'.table[fp], w')
  {
    if e.Datagram? {
      BeatTable(g, w, e, at);
    } else {
      OtherTable(g, w, e, at);
    }
  }

  /** An entry that was earned is so still, as installs only grow. */
  lemma StillEarned(w: World, fp: Fp, c: Client, w': World, c': Client)
    requires Earned(w, fp, c) && c'.key == c.key && c'.lastHb == c.lastHb && w.installs <= w'.installs
    requires w'.lastTick - CLIENT_TIMEOUT <= c'.lastHb && w.now <= w'.now
    ensures Earned(w', fp, c')
  {
    var i :| i in w.installs && i.fp == fp && i.key == c.key && c.lastHb - SESSION_TTL <= i.at;
    assert i in w'.installs;
  }

  /** And a heartbeat earns one, on the strength of its session. */
  lemma NewlyEarned(w: World, fp: Fp, c: Client, w': World)
    requires SessionsTimed(w) && fp in w.auth.sessions && !w.auth.sessions[fp].Expired(c.lastHb)
    requires c.key == w.auth.sessions[fp].key && w.installs <= w'.installs
    requires w'.lastTick - CLIENT_TIMEOUT <= c.lastHb <= w'.now
    ensures Earned(w', fp, c)
  {
    var s := w.auth.sessions[fp];
    assert InstalledAt(w, s.key, fp, s.expiresAt - SESSION_TTL);
    var i :| i in w.installs && i.key == s.key && i.fp == fp && i.at == s.expiresAt - SESSION_TTL;
    assert i in w'.installs;
  }

  lemma EarnedStays(g: Setting, w: World, e: Event, at: int, fp: Fp)
    requires Enabled(g, w, e, at) && TableEarned(w) && SessionsTimed(w)
    requires fp in TableAfter(g, w, e, at)
    ensures Earned(Next(g, w, e, at), fp, TableAfter(g, w, e, at)[fp])
  {
    var w' := Next(g, w, e, at);
    var c := w'.table[fp];
    TableEffect(g, w, e, at);
    assert ClientFollows(w, e, at, fp, c, w');
    if fp in w.table && c.key == w.table[fp].key && c.lastHb == w.table[fp].lastHb {
      StillEarned(w, fp, w.table[fp], w', c);
    } else {
      NewlyEarned(w, fp, c, w');
    }
  }

  /** A session can only be replaced by one with a key no client has yet. */
  lemma PinStays(g: Setting, w: World, e: Event, at: int, fp: Fp)
    requires Enabled(g, w, e, at) && TableEarned(w) && fp in TableAfter(g, w, e, at)
    requires Replay.Distinct(Next(g, w, e, at))
    ensures PinnedAddress(Next(g, w, e, at), fp, TableAfter(g, w, e, at)[fp])
  {
    var w' := Next(g, w, e, at);
    var c := w'.table[fp];
    TableEffect(g, w, e, at);
    assert ClientFollows(w, e, at, fp, c, w');
    Grants.InstallEffect(g, w, e, at);
    Grants.SessionsEffect(g, w, e, at);
    if w'.installs != w.installs {
      var i := w'.installs[|w.installs|];
      Replay.NewKeyIsNew(w, i, w', fp);
      assert Earned(w, fp, w.table[fp]);
    }
    if fp in w.table {
      assert PinnedAddress(w, fp, w.table[fp]);
    }
  }

  lemma NextKeepsEarned(g: Setting, w: World, e: Event, at: int)
    requires Enabled(g, w, e, at) && TableEarned(w) && SessionsTimed(w)
    requires Replay.Distinct(Next(g, w, e, at))
    ensures TableEarned(Next(g, w, e, at))
  {
    var w' := Next(g, w, e, at);
    forall fp | fp in w'.table
      ensures Earned(w', fp, w'.table[fp]) && PinnedAddress(w', fp, w'.table[fp])
    {
      EarnedStays(g, w, e, at, fp);
      PinStays(g, w, e, at, fp);
    }
  }

  // -------------------------------------------------------------------------
  // Runs

  predicate Kept(g: Setting, w: World) {
    && Bounded(w.table) && TableEarned(w) && SessionsTimed(w)
    && w.now <= w.lastTick + g.tickGap
  }

  lemma InitialKept(g: Setting, w: World)
    requires Initial(w)
    ensures Kept(g, w)
  {
  }

  lemma StepKeepsAll(g: Setting, w: World, s: Step, w': World)
    requires Goes(g, w, s, w') && Kept(g, w) && Replay.Distinct(w')
    ensures Kept(g, w')
  {
    NextKeepsBounded(g, w, s.event, s.at);
    NextKeepsTimed(g, w, s.event, s.at);
    NextKeepsEarned(g, w, s.event, s.at);
  }

  lemma KeptNext(g: Setting, steps: seq<Step>, worlds: seq<World>, k: nat)
    requires IsRun(g, steps, worlds) && 0 < k < |worlds| && Kept(g, worlds[k - 1])
    ensures Kept(g, worlds[k])
  {
    StepInto(g, steps, worlds, k);
    Replay.AlwaysDistinct(g, steps, worlds, k);
    StepKeepsAll(g, worlds[k - 1], steps[k - 1], worlds[k]);
  }

  /** In every run: at most `MAX_STREAM_CLIENTS` clients, each with a sequence
      number that counts the frames sent and fewer errors in a row than evict
      it; and a client with its session's key has the session's pinned address. */
  lemma {:induction false} TableIsKept(g: Setting, steps: seq<Step>, worlds: seq<World>, k: nat)
    requires IsRun(g, steps, worlds) && k < |worlds|
    ensures Kept(g, worlds[k])
  {
    if k == 0 {
      InitialKept(g, worlds[0]);
    } else {
      TableIsKept(g, steps, worlds, k - 1);
      KeptNext(g, steps, worlds, k);
    }
  }

  /** If the device's session has this key, it is pinned to this address. */
  predicate PinnedUnder(w: World, fp: Fp, key: Bytes, ip: string) {
    && Replay.KeyOfInstall(w, key, fp)
    && (fp in w.auth.sessions && w.auth.sessions[fp].key == key ==> w.auth.sessions[fp].udpIp == Some(ip))
  }

  lemma StepKeepsPin(g: Setting, w: World, s: Step, w': World, fp: Fp, key: Bytes, ip: string)
    requires Goes(g, w, s, w') && PinnedUnder(w, fp, key, ip) && Replay.Distinct(w')
    ensures PinnedUnder(w', fp, key, ip)
  {
    Replay.InstallsGrow(g, w, s.event, s.at, key, fp);
    Grants.InstallEffect(g, w, s.event, s.at);
    Grants.SessionsEffect(g, w, s.event, s.at);
    if w'.installs != w.installs {
      Replay.NewKeyIsNew(w, w'.installs[|w.installs|], w', fp);
    }
  }

  lemma PinNext(g: Setting, steps: seq<Step>, worlds: seq<World>, k: nat, fp: Fp, key: Bytes, ip: string)
    requires IsRun(g, steps, worlds) && 0 < k < |worlds| && PinnedUnder(worlds[k - 1], fp, key, ip)
    ensures PinnedUnder(worlds[k], fp, key, ip)
  {
    StepInto(g, steps, worlds, k);
    Replay.AlwaysDistinct(g, steps, worlds, k);
    StepKeepsPin(g, worlds[k - 1], steps[k - 1], worlds[k], fp, key, ip);
  }

  lemma {:induction false} PinStaysSet(g: Setting, steps: seq<Step>, worlds: seq<World>, j: nat, k: nat, fp: Fp,
                                       key: Bytes, ip: string)
    requires IsRun(g, steps, worlds) && j <= k < |worlds| && PinnedUnder(worlds[j], fp, key, ip)
    ensures PinnedUnder(worlds[k], fp, key, ip)
  {
    if j < k {
      PinStaysSet(g, steps, worlds, j, k - 1, fp, key, ip);
      PinNext(g, steps, worlds, k, fp, key, ip);
    }
  }

  /** Once a session is pinned to an address it stays so for its whole life:
      whenever, later in any run, the device's session has the same key, its
      address is the same. */
  lemma PinNeverMoves(g: Setting, steps: seq<Step>, worlds: seq<World>, j: nat, k: nat, fp: Fp)
    requires IsRun(g, steps, worlds) && j <= k < |worlds| && fp in worlds[j].auth.sessions
    requires worlds[j].auth.sessions[fp].udpIp.Some?
    requires fp in worlds[k].auth.sessions && worlds[k].auth.sessions[fp].key == worlds[j].auth.sessions[fp].key
    ensures worlds[k].auth.sessions[fp].udpIp == worlds[j].auth.sessions[fp].udpIp
  {
    var s := worlds[j].auth.sessions[fp];
    Replay.AlwaysKnown(g, steps, worlds, j);
    PinStaysSet(g, steps, worlds, j, k, fp, s.key, s.udpIp.value);
  }

  /** Streaming is bounded by authentication. Whoever is in the table at any
      time before the next cleanup tick is due has authenticated, under that name
      and with that key, no longer ago than a session lasts, plus the client
      timeout, plus the time between ticks. */
  lemma StreamingNeedsAuthentication(g: Setting, steps: seq<Step>, worlds: seq<World>, k: nat, fp: Fp, t: int)
    requires IsRun(g, steps, worlds) && k < |worlds| && fp in worlds[k].table
    requires worlds[k].now <= t <= worlds[k].lastTick + g.tickGap
    ensures exists i | i in worlds[k].installs ::
              i.fp == fp && i.key == worlds[k].table[fp].key && t - SESSION_TTL - CLIENT_TIMEOUT - g.tickGap <= i.at
  {
    TableIsKept(g, steps, worlds, k);
    var w := worlds[k];
    assert Earned(w, fp, w.table[fp]);
  }

  // -------------------------------------------------------------------------
  // Revocation

  /** The commands by which the operator ends a device's session. */
  lemma RevokedBy(g: Setting, w: World, e: Event, at: int, fp: Fp)
    requires e == RemoveTrustCmd(fp) || e == DisconnectCmd(fp)
          || (e == BlockCmd(fp) && (fp in w.auth.pending || fp in w.auth.trusted))
    ensures fp !in Next(g, w, e, at).auth.sessions
  {
  }

  /** No install for the device among those from `from` on. */
  predicate NotInstalledSince(installs: seq<Install>, from: nat, fp: Fp) {
    forall i | from <= i < |installs| :: installs[i].fp != fp
  }

  /** A device without a session gets none without an install, and nothing it
      sends is heard. */
  lemma RevokedStep(g: Setting, w: World, e: Event, at: int, fp: Fp)
    requires Enabled(g, w, e, at) && fp !in w.auth.sessions
    requires NotInstalledSince(Next(g, w, e, at).installs, |w.installs|, fp)
    ensures |w.installs| <= |Next(g, w, e, at).installs| && w.installs <= Next(g, w, e, at).installs
    ensures fp !in Next(g, w, e, at).auth.sessions
    ensures fp in Next(g, w, e, at).table ==> fp in w.table && Next(g, w, e, at).table[fp].lastHb == w.table[fp].lastHb
  {
    var w' := Next(g, w, e, at);
    Grants.InstallEffect(g, w, e, at);
    Grants.SessionsEffect(g, w, e, at);
    TableEffect(g, w, e, at);
    if fp in w'.table {
      assert ClientFollows(w, e, at, fp, w'.table[fp], w');
    }
  }

  /** Since `w0`, where the device had no session, it has not got one, and no
      heartbeat of its own has counted. */
  predicate RevokedSince(w0: World, w: World, fp: Fp) {
    && w0.installs <= w.installs && fp !in w.auth.sessions
    && (fp in w.table ==> fp in w0.table && w.table[fp].lastHb == w0.table[fp].lastHb)
  }

  lemma NotInstalledBefore(g: Setting, steps: seq<Step>, worlds: seq<World>, k: nat, from: nat, fp: Fp)
    requires IsRun(g, steps, worlds) && 0 < k < |worlds| && NotInstalledSince(worlds[k].installs, from, fp)
    ensures NotInstalledSince(worlds[k - 1].installs, from, fp)
  {
    StepInto(g, steps, worlds, k);
    assert worlds[k - 1].installs <= worlds[k].installs;
  }

  lemma RevokedNext(g: Setting, steps: seq<Step>, worlds: seq<World>, w0: World, k: nat, fp: Fp)
    requires IsRun(g, steps, worlds) && 0 < k < |worlds| && RevokedSince(w0, worlds[k - 1], fp)
    requires NotInstalledSince(worlds[k].installs, |w0.installs|, fp)
    ensures RevokedSince(w0, worlds[k], fp)
  {
    StepInto(g, steps, worlds, k);
    RevokedStep(g, worlds[k - 1], steps[k - 1].event, steps[k - 1].at, fp);
  }

  lemma {:induction false} StaysRevoked(g: Setting, steps: seq<Step>, worlds: seq<World>, j: nat, k: nat, fp: Fp)
    requires IsRun(g, steps, worlds) && j <= k < |worlds| && fp !in worlds[j].auth.sessions
    requires NotInstalledSince(worlds[k].installs, |worlds[j].installs|, fp)
    ensures RevokedSince(worlds[j], worlds[k], fp)
  {
    var w0 := worlds[j];
    if j < k {
      NotInstalledBefore(g, steps, worlds, k, |w0.installs|, fp);
      StaysRevoked(g, steps, worlds, j, k - 1, fp);
      RevokedNext(g, steps, worlds, w0, k, fp);
    }
  }

  /** Revocation takes effect. When a device has no session, say because the
      operator has just ended it, and is not installed again, then it stays
      without one, no heartbeat of its own counts any more, and it is sent
      nothing after one client timeout and one gap between cleanup ticks. */
  lemma RevocationTakesEffect(g: Setting, steps: seq<Step>, worlds: seq<World>, j: nat, k: nat, fp: Fp)
    requires IsRun(g, steps, worlds) && j <= k < |worlds| && fp !in worlds[j].auth.sessions
    requires NotInstalledSince(worlds[k].installs, |worlds[j].installs|, fp)
    ensures fp !in worlds[k].auth.sessions
    ensures fp in worlds[k].table ==> fp in worlds[j].table && worlds[k].table[fp].lastHb == worlds[j].table[fp].lastHb
    ensures worlds[k].now > worlds[j].now + CLIENT_TIMEOUT + g.tickGap ==> fp !in worlds[k].table
  {
    StaysRevoked(g, steps, worlds, j, k, fp);
    if fp in worlds[k].table {
      TableIsKept(g, steps, worlds, j);
      TableIsKept(g, steps, worlds, k);
      assert Earned(worlds[k], fp, worlds[k].table[fp]);
      assert Earned(worlds[j], fp, worlds[j].table[fp]);
    }
  }
}
