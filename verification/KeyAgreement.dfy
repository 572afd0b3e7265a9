/** The session the server installs and the key the client derives. */
module KeyAgreement {
  import opened Wrappers
  import opened Wire
  import opened Crypto
  import opened AuthModel
  import opened Server
  import Grants

  // -------------------------------------------------------------------------
  // Reading a signed message back

  /** Two handshakes that were signed with the same bytes, one of them with the
      server's lengths and the other with a 32-byte client key, are the same
      handshake exactly when the other's server key has 32 bytes too. */
  lemma BindingParses(c1: Bytes, x1: Bytes, s1: Bytes, c2: Bytes, x2: Bytes, s2: Bytes)
    requires |c1| == CHALLENGE_LEN && |x1| == KEY_LEN && |s1| == KEY_LEN && |x2| == KEY_LEN
    requires Binding(c1, x1, s1) == Binding(c2, x2, s2)
    ensures c1 == c2 && x1 == x2 && s1 == s2 <==> |s2| == KEY_LEN
  {
    var m1, m2 := Binding(c1, x1, s1), Binding(c2, x2, s2);
    if |s2| == KEY_LEN {
      assert |c2| == CHALLENGE_LEN;
      assert c1 == m1[..32] == m2[..32] == c2;
      assert x1 == m1[32..64] == m2[32..64] == x2;
      assert s1 == m1[64..] == m2[64..] == s2;
    }
  }

  /** The client checks no length, and without that the bytes can be read in
      two ways. */
  lemma BindingIsAmbiguous()
    ensures exists c1: Bytes, x1: Bytes, s1: Bytes, c2: Bytes, x2: Bytes, s2: Bytes ::
              && |c1| == CHALLENGE_LEN && |x1| == KEY_LEN && |s1| == KEY_LEN && |x2| == KEY_LEN
              && Binding(c1, x1, s1) == Binding(c2, x2, s2) && c1 != c2
  {
    var z := Zeros(32);
    var c2, s2 := Zeros(31), Zeros(33);
    assert Binding(z, z, z) == Binding(c2, z, s2);
    assert |z| != |c2|;
  }

  // -------------------------------------------------------------------------
  // What every run keeps

  /** A request is filed under the fingerprint of its own key. */
  predicate NamesMatch(c: Suite, pending: map<Fp, Request>) {
    forall fp | fp in pending :: c.fingerprint(pending[fp].publicKey) == fp
  }

  /** The session key was derived from the request, and the device's own key
      signed the request's binding. */
  predicate SoundInstall(g: Setting, w: World, i: Install) {
    var r := i.request;
    && g.c.fingerprint(r.publicKey) == i.fp
    && |r.challenge| == CHALLENGE_LEN
    && Signature(r.publicKey, RequestBinding(g.c, r)) in w.signed
    && g.c.exchange(r.serverPriv, r.clientX).Some?
    && i.key == g.c.derive(g.c.exchange(r.serverPriv, r.clientX).value, r.challenge)
  }

  /** Every signature of the honest client belongs to one of its handshakes. */
  predicate Witnessed(g: Setting, w: World, s: Signature) {
    s.signer == g.honest ==> exists h | h in w.handshakes :: s.message == ClientBinding(g.c, h)
  }

  /** Sessions with different challenges have different keys. */
  predicate KeysApart(w: World) {
    forall i, j | i in w.installs && j in w.installs && i.key == j.key :: i.request.challenge == j.request.challenge
  }

  predicate Keyed(g: Setting, w: World) {
    && NamesMatch(g.c, w.auth.pending) && KeysApart(w)
    && (forall i | i in w.installs :: SoundInstall(g, w, i))
    && (forall s | s in w.signed :: Witnessed(g, w, s))
  }

  lemma HelloKeepsNames(g: Setting, a: Auth, h: Hello, draw: Fresh, now: int, allowed: bool, fpAllowed: bool)
    requires NamesMatch(g.c, a.pending)
    ensures NamesMatch(g.c, HandleHello(g.c, g.serverKey, a, h, draw, now, allowed, fpAllowed).0.pending)
  {
  }

  lemma NextKeepsNames(g: Setting, w: World, e: Event, at: int)
    requires NamesMatch(g.c, w.auth.pending)
    ensures NamesMatch(g.c, AuthAfter(g, w, e, at).pending)
  {
    match e
    case HelloMsg(h, draw, allowed, fpAllowed) => HelloKeepsNames(g, w.auth, h, draw, at, allowed, fpAllowed);
    case PingMsg(_) =>
    case AllowOnceCmd(_) =>
    case _ => Grants.OtherPending(g, w, e, at);
  }

  lemma NextKeepsInstalls(g: Setting, w: World, e: Event, at: int)
    requires Enabled(g, w, e, at) && Keyed(g, w) && Grants.PendingSecrets(w)
    ensures forall i | i in Next(g, w, e, at).installs :: SoundInstall(g, Next(g, w, e, at), i)
  {
    var w' := Next(g, w, e, at);
    Grants.InstallEffect(g, w, e, at);
    forall i | i in w'.installs
      ensures SoundInstall(g, w', i)
    {
      if i in w.installs {
        assert SoundInstall(g, w, i);
      }
    }
  }

  lemma NextKeepsApart(g: Setting, w: World, e: Event, at: int)
    requires Enabled(g, w, e, at) && KeysApart(w)
    ensures KeysApart(Next(g, w, e, at))
  {
    var w' := Next(g, w, e, at);
    if Installed(g, w, e, at) != [] {
      assert NewKeyApart(g, w, e, at);
      var i := Installed(g, w, e, at)[0];
      assert i in Installed(g, w, e, at);
      assert forall x | x in w'.installs :: x in w.installs || x == i;
    }
  }

  lemma NextKeepsWitnesses(g: Setting, w: World, e: Event, at: int)
    requires Enabled(g, w, e, at) && Keyed(g, w)
    ensures forall s | s in Next(g, w, e, at).signed :: Witnessed(g, Next(g, w, e, at), s)
  {
    var w' := Next(g, w, e, at);
    assert w.handshakes <= w'.handshakes;
    forall s | s in w'.signed && s.signer == g.honest
      ensures Witnessed(g, w', s)
    {
      if s in w.signed {
        assert Witnessed(g, w, s);
        var h :| h in w.handshakes && s.message == ClientBinding(g.c, h);
        assert h in w'.handshakes;
      } else {
        assert e.HonestSigns?;
        assert e.handshake in w'.handshakes;
      }
    }
  }

  lemma StepKeepsKeyed(g: Setting, w: World, s: Step, w': World)
    requires Goes(g, w, s, w') && Keyed(g, w) && Grants.PendingSecrets(w)
    ensures Keyed(g, w')
  {
    NextKeepsNames(g, w, s.event, s.at);
    NextKeepsInstalls(g, w, s.event, s.at);
    NextKeepsApart(g, w, s.event, s.at);
    NextKeepsWitnesses(g, w, s.event, s.at);
  }

  lemma InitialKeyed(g: Setting, w: World)
    requires Initial(w)
    ensures Keyed(g, w)
  {
  }

  lemma KeyedNext(g: Setting, steps: seq<Step>, worlds: seq<World>, k: nat)
    requires IsRun(g, steps, worlds) && 0 < k < |worlds| && Keyed(g, worlds[k - 1])
    ensures Keyed(g, worlds[k])
  {
    Grants.AlwaysSecret(g, steps, worlds, k - 1);
    StepInto(g, steps, worlds, k);
    StepKeepsKeyed(g, worlds[k - 1], steps[k - 1], worlds[k]);
  }

  lemma {:induction false} AlwaysKeyed(g: Setting, steps: seq<Step>, worlds: seq<World>, k: nat)
    requires IsRun(g, steps, worlds) && k < |worlds|
    ensures Keyed(g, worlds[k])
  {
    if k == 0 {
      InitialKeyed(g, worlds[0]);
    } else {
      AlwaysKeyed(g, steps, worlds, k - 1);
      KeyedNext(g, steps, worlds, k);
    }
  }

  // -------------------------------------------------------------------------
  // Agreement

  /** The client signed for this very install. */
  predicate SignedFor(c: Suite, h: Handshake, i: Install) {
    ClientBinding(c, h) == RequestBinding(c, i.request)
  }

  /** What the handshake has in common with the request it was signed for. */
  lemma HandshakeAgrees(g: Setting, w: World, h: Handshake, i: Install)
    requires g.c.Lawful() && SoundInstall(g, w, i) && SignedFor(g.c, h, i)
    ensures ClientKeyOf(g.c, h) == Some(i.key) <==> |h.serverX| == KEY_LEN
    ensures |h.serverX| != KEY_LEN ==> ClientKeyOf(g.c, h) == None
  {
    var r := i.request;
    BindingParses(r.challenge, r.clientX, g.c.publicOf(r.serverPriv), h.challenge, g.c.publicOf(h.xPriv), h.serverX);
    if |h.serverX| == KEY_LEN {
      assert g.c.exchange(h.xPriv, g.c.publicOf(r.serverPriv)) == g.c.exchange(r.serverPriv, g.c.publicOf(h.xPriv));
    }
  }

  /** Key agreement. In every run, whatever the network and the other devices
      do: a session installed for the honest client's identity was signed for by
      one of that client's own handshakes; and of any such handshake, the client
      derives exactly the session's key if the server key it was given has 32
      bytes, and no key at all otherwise. */
  lemma KeysAgree(g: Setting, steps: seq<Step>, worlds: seq<World>, k: nat, i: Install)
    requires g.c.Lawful() && IsRun(g, steps, worlds) && k < |worlds|
    requires i in worlds[k].installs && i.fp == g.c.fingerprint(g.honest)
    ensures exists h | h in worlds[k].handshakes :: SignedFor(g.c, h, i)
    ensures forall h | h in worlds[k].handshakes && SignedFor(g.c, h, i) ::
              if |h.serverX| == KEY_LEN then ClientKeyOf(g.c, h) == Some(i.key) else ClientKeyOf(g.c, h) == None
  {
    AlwaysKeyed(g, steps, worlds, k);
    var w, r := worlds[k], i.request;
    assert SoundInstall(g, w, i);
    assert r.publicKey == g.honest;
    var s := Signature(r.publicKey, RequestBinding(g.c, r));
    assert Witnessed(g, w, s);
    forall h | h in w.handshakes && SignedFor(g.c, h, i)
      ensures if |h.serverX| == KEY_LEN then ClientKeyOf(g.c, h) == Some(i.key) else ClientKeyOf(g.c, h) == None
    {
      HandshakeAgrees(g, w, h, i);
    }
  }
}
