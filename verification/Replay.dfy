/** How often one heartbeat can be accepted. */
module Replay {
  import opened Wrappers
  import opened Wire
  import opened Crypto
  import opened AuthModel
  import opened Heartbeat
  import opened StreamModel
  import opened Server
  import Grants
  import KeyAgreement

  // -------------------------------------------------------------------------
  // Bounded histories

  /** The last 512. */
  function LastFew(s: seq<Bytes>): seq<Bytes> {
    if |s| > 512 then s[|s| - 512..] else s
  }

  lemma AppendIsLastFew(s: seq<Bytes>, n: Bytes)
    ensures AppendBounded(LastFew(s), n) == LastFew(s + [n])
  {
  }

  lemma RecentIsRemembered(before: seq<Bytes>, n: Bytes, after: seq<Bytes>)
    requires |after| < NONCE_HISTORY_LEN
    ensures n in LastFew(before + [n] + after)
  {
    var few := LastFew(before + [n] + after);
    assert few[|few| - |after| - 1] == n;
  }

  lemma LastFewOfLonger(before: seq<Bytes>, after: seq<Bytes>)
    requires |after| >= NONCE_HISTORY_LEN
    ensures LastFew(before + after) == LastFew(after)
  {
  }

  /** The nonces that the session with this key has taken, in order. */
  function NoncesUnder(accepts: seq<Accept>, key: Bytes): seq<Bytes> {
    if accepts == [] then []
    else
      var last := accepts[|accepts| - 1];
      NoncesUnder(accepts[..|accepts| - 1], key) + if last.key == key then [last.beat.nonce] else []
  }

  lemma NoncesUnderOneMore(accepts: seq<Accept>, a: Accept, key: Bytes)
    ensures NoncesUnder(accepts + [a], key) == NoncesUnder(accepts, key) + if a.key == key then [a.beat.nonce] else []
  {
    assert (accepts + [a])[..|accepts|] == accepts;
  }

  lemma {:induction false} NoncesUnderSplit(accepts: seq<Accept>, rest: seq<Accept>, key: Bytes)
    ensures NoncesUnder(accepts + rest, key) == NoncesUnder(accepts, key) + NoncesUnder(rest, key)
  {
    if rest == [] {
      assert accepts + rest == accepts;
    } else {
      var init, last := rest[..|rest| - 1], rest[|rest| - 1];
      NoncesUnderSplit(accepts, init, key);
      assert accepts + rest == (accepts + init) + [last];
      NoncesUnderOneMore(accepts + init, last, key);
    }
  }

  lemma {:induction false} NoNoncesUnder(accepts: seq<Accept>, key: Bytes)
    requires forall a | a in accepts :: a.key != key
    ensures NoncesUnder(accepts, key) == []
  {
    if accepts != [] {
      NoNoncesUnder(accepts[..|accepts| - 1], key);
    }
  }

  // -------------------------------------------------------------------------
  // What every run keeps

  predicate KeyOfInstall(w: World, key: Bytes, fp: Fp) {
    exists i | i in w.installs :: i.key == key && i.fp == fp
  }

  /** An accepted heartbeat passed the checks of a session that was installed
      for its name. */
  predicate Passed(c: Suite, w: World, a: Accept) {
    && a.beat.Valid() && KeyOfInstall(w, a.key, a.beat.name)
    && TagVerifies(c, a.key, a.beat) && WithinSkew(a.at, a.beat)
  }

  /** Its nonce was none of the last few the session had taken. */
  predicate WasNew(accepts: seq<Accept>, j: nat)
    requires j < |accepts|
  {
    accepts[j].beat.nonce !in LastFew(NoncesUnder(accepts[..j], accepts[j].key))
  }

  /** A session remembers the last few nonces taken under its key. */
  predicate Remembers(w: World, s: Session) {
    s.usedNonces == LastFew(NoncesUnder(w.accepts, s.key))
  }

  predicate SessionsKnown(w: World) {
    forall fp | fp in w.auth.sessions ::
      KeyOfInstall(w, w.auth.sessions[fp].key, fp) && Remembers(w, w.auth.sessions[fp])
  }

  /** The same heartbeat is only ever accepted by one session. */
  predicate OneSession(accepts: seq<Accept>) {
    forall a, b | a in accepts && b in accepts && a.beat == b.beat :: a.key == b.key
  }

  predicate AcceptsKnown(c: Suite, w: World) {
    && OneSession(w.accepts)
    && (forall a | a in w.accepts :: Passed(c, w, a))
    && (forall j | 0 <= j < |w.accepts| :: WasNew(w.accepts, j))
  }

  /** Sessions have different challenges, and those lead to different keys. */
  predicate Distinct(w: World) {
    KeyAgreement.KeysApart(w) && Grants.AllDifferent(w.installs)
  }

  lemma AlwaysDistinct(g: Setting, steps: seq<Step>, worlds: seq<World>, k: nat)
    requires IsRun(g, steps, worlds) && k < |worlds|
    ensures Distinct(worlds[k])
  {
    KeyAgreement.AlwaysKeyed(g, steps, worlds, k);
    Grants.AlwaysSecret(g, steps, worlds, k);
  }

  /** No two installs have the same key. */
  lemma KeysDiffer(w: World, i: Install, j: Install)
    requires Distinct(w)
    requires i in w.installs && j in w.installs && i.key == j.key
    ensures i == j
  {
  }

  /** In no run do two installed sessions have the same key. */
  lemma NoSharedKeys(g: Setting, steps: seq<Step>, worlds: seq<World>, k: nat, m: nat, n: nat)
    requires IsRun(g, steps, worlds) && k < |worlds| && m < n < |worlds[k].installs|
    ensures worlds[k].installs[m].key != worlds[k].installs[n].key
  {
    AlwaysDistinct(g, steps, worlds, k);
    var i, j := worlds[k].installs[m], worlds[k].installs[n];
    assert i in worlds[k].installs && j in worlds[k].installs;
    assert i.request.challenge != j.request.challenge;
  }

  lemma OneName(w: World, key: Bytes, p: Fp, q: Fp)
    requires Distinct(w)
    requires KeyOfInstall(w, key, p) && KeyOfInstall(w, key, q)
    ensures p == q
  {
    var i :| i in w.installs && i.key == key && i.fp == p;
    var j :| j in w.installs && j.key == key && j.fp == q;
    KeysDiffer(w, i, j);
  }

  lemma NotAmongOthers(installs: seq<Install>, i: Install)
    requires Grants.AllDifferent(installs + [i])
    ensures i !in installs
  {
    forall m | 0 <= m < |installs|
      ensures installs[m] != i
    {
      assert (installs + [i])[m].request.challenge != (installs + [i])[|installs|].request.challenge;
    }
  }

  /** The key of a session that has just been installed was never seen. */
  lemma NewKeyIsNew(w: World, i: Install, w': World, fp: Fp)
    requires Distinct(w')
    requires w'.installs == w.installs + [i]
    ensures !KeyOfInstall(w, i.key, fp)
  {
    assert i !in w.installs by {
      NotAmongOthers(w.installs, i);
    }
    if KeyOfInstall(w, i.key, fp) {
      var x :| x in w.installs && x.key == i.key && x.fp == fp;
      KeysDiffer(w', x, i);
      assert false;
    }
  }

  lemma InstallsGrow(g: Setting, w: World, e: Event, at: int, key: Bytes, fp: Fp)
    requires KeyOfInstall(w, key, fp)
    ensures KeyOfInstall(Next(g, w, e, at), key, fp)
  {
    var i :| i in w.installs && i.key == key && i.fp == fp;
    assert i in Next(g, w, e, at).installs;
  }

  // -------------------------------------------------------------------------
  // Steps without an accepted heartbeat

  lemma OldSessionsKnown(g: Setting, w: World, e: Event, at: int, w': World)
    requires w' == Next(g, w, e, at) && SessionsKnown(w) && w'.accepts == w.accepts
    requires forall fp | fp in w'.auth.sessions ::
               fp in w.auth.sessions && w'.auth.sessions[fp].key == w.auth.sessions[fp].key
               && w'.auth.sessions[fp].usedNonces == w.auth.sessions[fp].usedNonces
    ensures SessionsKnown(w')
  {
    forall fp | fp in w'.auth.sessions
      ensures KeyOfInstall(w', w'.auth.sessions[fp].key, fp)
    {
      InstallsGrow(g, w, e, at, w.auth.sessions[fp].key, fp);
    }
  }

  /** A new session starts with no nonces, and rightly so: its key is new. */
  lemma NewSessionRemembers(g: Setting, w: World, i: Install, w': World)
    requires Distinct(w')
    requires AcceptsKnown(g.c, w) && w'.installs == w.installs + [i] && w'.accepts == w.accepts
    ensures NoncesUnder(w'.accepts, i.key) == [] && KeyOfInstall(w', i.key, i.fp)
  {
    assert i in w'.installs;
    forall a | a in w.accepts
      ensures a.key != i.key
    {
      assert Passed(g.c, w, a);
      NewKeyIsNew(w, i, w', a.beat.name);
    }
    NoNoncesUnder(w.accepts, i.key);
  }

  lemma NewSessionKnown(g: Setting, w: World, e: Event, at: int, w': World)
    requires w' == Next(g, w, e, at) && w'.accepts == w.accepts
    requires SessionsKnown(w) && AcceptsKnown(g.c, w)
    requires Distinct(w')
    requires w'.installs != w.installs && Grants.InstallsFollow(g, w, e, w')
    ensures SessionsKnown(w')
  {
    var i := w'.installs[|w.installs|];
    NewSessionRemembers(g, w, i, w');
    forall fp | fp in w'.auth.sessions
      ensures KeyOfInstall(w', w'.auth.sessions[fp].key, fp)
      ensures Remembers(w', w'.auth.sessions[fp])
    {
      if fp != i.fp {
        InstallsGrow(g, w, e, at, w.auth.sessions[fp].key, fp);
      }
    }
  }

  lemma OldAcceptsKnown(g: Setting, w: World, e: Event, at: int, w': World)
    requires w' == Next(g, w, e, at) && AcceptsKnown(g.c, w) && w'.accepts == w.accepts
    ensures AcceptsKnown(g.c, w')
  {
    forall a | a in w'.accepts
      ensures Passed(g.c, w', a)
    {
      assert Passed(g.c, w, a);
      InstallsGrow(g, w, e, at, a.key, a.beat.name);
    }
  }

  // -------------------------------------------------------------------------
  // An accepted heartbeat

  /** What accepting `a` does. */
  predicate Takes(c: Suite, w: World, a: Accept, w': World) {
    && w'.accepts == w.accepts + [a] && w'.installs == w.installs
    && a.beat.Valid() && a.beat.name in w.auth.sessions && a.beat.name in w'.auth.sessions
    && a.key == w.auth.sessions[a.beat.name].key
    && TagVerifies(c, a.key, a.beat) && WithinSkew(a.at, a.beat)
    && a.beat.nonce !in w.auth.sessions[a.beat.name].usedNonces && w'.auth.sessions[a.beat.name].udpIp == Some(a.ip)
    && w'.auth.sessions[a.beat.name].usedNonces == AppendBounded(w.auth.sessions[a.beat.name].usedNonces, a.beat.nonce)
    && BeatFrame(w.auth, w'.auth, a.beat.name)
  }

  lemma RefusedEffect(g: Setting, w: World, e: Event, at: int)
    requires e.Datagram? && Accepted(g, w, e, at) == []
    ensures var sessions' := AuthAfter(g, w, e, at).sessions;
            forall fp | fp in sessions' ::
              fp in w.auth.sessions && sessions'[fp].key == w.auth.sessions[fp].key
              && sessions'[fp].usedNonces == w.auth.sessions[fp].usedNonces
  {
    if e.udpAllowed && Parse(e.data).Some? {
      BeatEffect(g.c, w.auth, w.table, Parse(e.data).value, e.ip, e.port, at);
    }
  }

  /** An accepted datagram is a heartbeat whose nonce was taken. */
  lemma AcceptedBeat(g: Setting, w: World, e: Event, at: int) returns (b: Beat)
    requires e.Datagram? && Accepted(g, w, e, at) != []
    ensures Parse(e.data) == Some(b) && b.name in w.auth.sessions
    ensures Accepted(g, w, e, at) == [Accept(b, e.ip, w.auth.sessions[b.name].key, at)]
    ensures TookNonce(g.c, w.auth, b, e.ip, at, AuthAfter(g, w, e, at))
  {
    b := Parse(e.data).value;
    BeatEffect(g.c, w.auth, w.table, b, e.ip, e.port, at);
  }

  lemma TakenEffect(g: Setting, w: World, e: Event, at: int, w': World)
    requires e.Datagram? && Accepted(g, w, e, at) != [] && w'.auth == AuthAfter(g, w, e, at)
    requires w'.installs == w.installs && w'.accepts == w.accepts + Accepted(g, w, e, at)
    ensures Takes(g.c, w, Accepted(g, w, e, at)[0], w')
    ensures Parse(e.data) == Some(Accepted(g, w, e, at)[0].beat)
  {
    var b := AcceptedBeat(g, w, e, at);
    TookNonceIsTaken(g.c, w, b, e.ip, at, w');
  }

  lemma TookNonceIsTaken(c: Suite, w: World, b: Beat, ip: string, at: int, w': World)
    requires b.Valid() && TookNonce(c, w.auth, b, ip, at, w'.auth) && w'.installs == w.installs
    requires w'.accepts == w.accepts + [Accept(b, ip, w.auth.sessions[b.name].key, at)]
    ensures Takes(c, w, Accept(b, ip, w.auth.sessions[b.name].key, at), w')
  {
  }

  lemma TakenSessionRemembers(w: World, a: Accept, w': World, s: Session, s': Session)
    requires w'.accepts == w.accepts + [a] && Remembers(w, s) && s'.key == s.key
    requires s'.usedNonces == if a.key == s.key then AppendBounded(s.usedNonces, a.beat.nonce) else s.usedNonces
    ensures Remembers(w', s')
  {
    NoncesUnderOneMore(w.accepts, a, s.key);
    AppendIsLastFew(NoncesUnder(w.accepts, s.key), a.beat.nonce);
  }

  lemma TakenSessionsKnown(g: Setting, w: World, a: Accept, w': World)
    requires Distinct(w)
    requires SessionsKnown(w) && Takes(g.c, w, a, w')
    ensures SessionsKnown(w')
  {
    forall fp | fp in w'.auth.sessions
      ensures KeyOfInstall(w', w'.auth.sessions[fp].key, fp)
      ensures Remembers(w', w'.auth.sessions[fp])
    {
      var s, s' := w.auth.sessions[fp], w'.auth.sessions[fp];
      if fp != a.beat.name && a.key == s.key {
        OneName(w, s.key, fp, a.beat.name);
      }
      TakenSessionRemembers(w, a, w', s, s');
    }
  }

  lemma TakenBySameSession(c: Suite, w: World, x: Accept, a: Accept)
    requires Passed(c, w, x) && x.beat == a.beat && KeyOfInstall(w, a.key, a.beat.name)
    requires a.beat.Valid() && TagVerifies(c, a.key, a.beat) && OneKeyFor(c, w, a.beat)
    ensures x.key == a.key
  {
    var i :| i in w.installs && i.key == x.key && i.fp == x.beat.name;
    var j :| j in w.installs && j.key == a.key && j.fp == a.beat.name;
  }

  lemma OneMoreOfSession(accepts: seq<Accept>, a: Accept)
    requires OneSession(accepts) && forall x | x in accepts && x.beat == a.beat :: x.key == a.key
    ensures OneSession(accepts + [a])
  {
  }

  lemma StillNew(accepts: seq<Accept>, a: Accept)
    requires forall j | 0 <= j < |accepts| :: WasNew(accepts, j)
    requires a.beat.nonce !in LastFew(NoncesUnder(accepts, a.key))
    ensures forall j | 0 <= j < |accepts + [a]| :: WasNew(accepts + [a], j)
  {
    var longer := accepts + [a];
    forall j | 0 <= j < |longer|
      ensures WasNew(longer, j)
    {
      assert longer[..j] == accepts[..j];
      if j < |accepts| {
        assert WasNew(accepts, j);
      } else {
        assert accepts[..j] == accepts;
      }
    }
  }

  lemma StillPassed(c: Suite, w: World, a: Accept, w': World)
    requires SessionsKnown(w) && AcceptsKnown(c, w) && Takes(c, w, a, w')
    ensures forall x | x in w'.accepts :: Passed(c, w', x)
  {
    forall x | x in w'.accepts
      ensures Passed(c, w', x)
    {
      if x in w.accepts {
        assert Passed(c, w, x);
      }
    }
  }

  lemma TakenAcceptsKnown(c: Suite, w: World, a: Accept, w': World)
    requires SessionsKnown(w) && AcceptsKnown(c, w) && Takes(c, w, a, w') && OneKeyFor(c, w, a.beat)
    ensures AcceptsKnown(c, w')
  {
    StillPassed(c, w, a, w');
    assert Remembers(w, w.auth.sessions[a.beat.name]);
    StillNew(w.accepts, a);
    forall x | x in w.accepts && x.beat == a.beat
      ensures x.key == a.key
    {
      TakenBySameSession(c, w, x, a);
    }
    OneMoreOfSession(w.accepts, a);
  }

  // -------------------------------------------------------------------------
  // Runs

  predicate BothKnown(g: Setting, w: World) {
    SessionsKnown(w) && AcceptsKnown(g.c, w)
  }

  lemma DatagramKeepsKnown(g: Setting, w: World, e: Event, at: int, w': World)
    requires Enabled(g, w, e, at) && e.Datagram? && w' == Next(g, w, e, at)
    requires Distinct(w) && BothKnown(g, w)
    ensures BothKnown(g, w')
  {
    if Accepted(g, w, e, at) == [] {
      RefusedEffect(g, w, e, at);
      OldSessionsKnown(g, w, e, at, w');
      OldAcceptsKnown(g, w, e, at, w');
    } else {
      TakenEffect(g, w, e, at, w');
      TakenSessionsKnown(g, w, Accepted(g, w, e, at)[0], w');
      TakenAcceptsKnown(g.c, w, Accepted(g, w, e, at)[0], w');
    }
  }

  lemma ResponseKeepsKnown(g: Setting, w: World, e: Event, at: int, w': World)
    requires Enabled(g, w, e, at) && e.ResponseMsg? && w' == Next(g, w, e, at)
    requires Distinct(w') && BothKnown(g, w)
    ensures BothKnown(g, w')
  {
    OldAcceptsKnown(g, w, e, at, w');
    Grants.InstallEffect(g, w, e, at);
    if w'.installs != w.installs {
      NewSessionKnown(g, w, e, at, w');
    } else {
      OldSessionsKnown(g, w, e, at, w');
    }
  }

  lemma OtherKeepsKnown(g: Setting, w: World, e: Event, at: int, w': World)
    requires !e.Datagram? && !e.ResponseMsg? && w' == Next(g, w, e, at) && BothKnown(g, w)
    ensures BothKnown(g, w')
  {
    OldAcceptsKnown(g, w, e, at, w');
    Grants.OtherSessions(g, w, e, at);
    OldSessionsKnown(g, w, e, at, w');
  }

  lemma StepKeepsKnown(g: Setting, w: World, s: Step, w': World)
    requires Goes(g, w, s, w') && BothKnown(g, w)
    requires Distinct(w) && Distinct(w')
    ensures BothKnown(g, w')
  {
    match s.event
    case Datagram(_, _, _, _) => DatagramKeepsKnown(g, w, s.event, s.at, w');
    case ResponseMsg(_, _) => ResponseKeepsKnown(g, w, s.event, s.at, w');
    case _ => OtherKeepsKnown(g, w, s.event, s.at, w');
  }

  lemma KnownNext(g: Setting, steps: seq<Step>, worlds: seq<World>, k: nat)
    requires IsRun(g, steps, worlds) && 0 < k < |worlds| && BothKnown(g, worlds[k - 1])
    ensures BothKnown(g, worlds[k])
  {
    StepInto(g, steps, worlds, k);
    AlwaysDistinct(g, steps, worlds, k - 1);
    AlwaysDistinct(g, steps, worlds, k);
    StepKeepsKnown(g, worlds[k - 1], steps[k - 1], worlds[k]);
  }

  lemma {:induction false} AlwaysKnown(g: Setting, steps: seq<Step>, worlds: seq<World>, k: nat)
    requires IsRun(g, steps, worlds) && k < |worlds|
    ensures BothKnown(g, worlds[k])
  {
    if k > 0 {
      AlwaysKnown(g, steps, worlds, k - 1);
      KnownNext(g, steps, worlds, k);
    }
  }

  /** A nonce that was taken at `i` and was new again at `j`. */
  lemma ManyInBetween(accepts: seq<Accept>, i: nat, j: nat)
    requires i < j < |accepts| && WasNew(accepts, j)
    requires accepts[i].key == accepts[j].key && accepts[i].beat.nonce == accepts[j].beat.nonce
    ensures var between := NoncesUnder(accepts[i + 1..j], accepts[i].key);
            |between| >= NONCE_HISTORY_LEN && accepts[i].beat.nonce !in LastFew(between)
  {
    var a := accepts[i];
    var before, between := NoncesUnder(accepts[..i], a.key), NoncesUnder(accepts[i + 1..j], a.key);
    assert accepts[..j] == (accepts[..i] + [a]) + accepts[i + 1..j];
    NoncesUnderSplit(accepts[..i] + [a], accepts[i + 1..j], a.key);
    NoncesUnderOneMore(accepts[..i], a, a.key);
    if |between| < NONCE_HISTORY_LEN {
      RecentIsRemembered(before, a.beat.nonce, between);
      assert false;
    }
    LastFewOfLonger(before + [a.beat.nonce], between);
  }

  /** Heartbeats are accepted at most once, up to the size of the history. Over
      a whole run, across all sessions and re-authentications: when the same
      heartbeat is accepted twice, it was by the same session, the two times are
      no further apart than twice the allowed skew, and in between that session
      took at least 512 nonces, the last so many of which are
      all different from this one. */
  lemma AcceptedAtMostOnce(g: Setting, steps: seq<Step>, worlds: seq<World>, k: nat, i: nat, j: nat)
    requires IsRun(g, steps, worlds) && k < |worlds|
    requires i < j < |worlds[k].accepts| && worlds[k].accepts[i].beat == worlds[k].accepts[j].beat
    ensures var accepts := worlds[k].accepts;
            var between := NoncesUnder(accepts[i + 1..j], accepts[i].key);
            && accepts[i].key == accepts[j].key
            && -60_000 <= accepts[j].at - accepts[i].at <= 60_000
            && |between| >= 512
            && accepts[i].beat.nonce !in LastFew(between)
  {
    AlwaysKnown(g, steps, worlds, k);
    var accepts := worlds[k].accepts;
    var a, b := accepts[i], accepts[j];
    assert a in accepts && b in accepts;
    assert Passed(g.c, worlds[k], a) && Passed(g.c, worlds[k], b);
    assert WasNew(accepts, j);
    ManyInBetween(accepts, i, j);
  }

  lemma TakenExactly(c: Suite, a: Auth, t: Table, b: Beat, ip: string, port: nat, now: int)
    requires b.Valid()
    ensures NonceTaken(OnBeat(c, a, t, b, ip, port, now).2) <==>
            && HasSession(a, b.name, now) && WithinSkew(now, b) && TagVerifies(c, a.sessions[b.name].key, b)
            && (a.sessions[b.name].udpIp.None? || a.sessions[b.name].udpIp == Some(ip))
            && b.nonce !in a.sessions[b.name].usedNonces
  {
  }
}
