/** No session without a grant: what a device that is never trusted can get
    out of the server over a whole run. */
module Grants {
  import opened Wrappers
  import opened Wire
  import opened Crypto
  import opened AuthModel
  import opened StreamModel
  import opened Server
  import Heartbeat

  // -------------------------------------------------------------------------
  // What a step does, as far as requests and sessions are concerned

  /** The same request, perhaps with another deadline or a grant. */
  predicate SameRequest(r: Request, r': Request) {
    r' == r.(expires := r'.expires, allowOnce := r'.allowOnce)
  }

  /** The request was made or refreshed in this step, with the drawn challenge. */
  predicate NewlyDrawn(g: Setting, w: World, e: Event, fp: Fp, r': Request) {
    && e.HelloMsg? && fp == g.c.fingerprint(e.hello.publicKey) && r'.challenge == e.draw.challenge
    && (fp !in w.auth.trusted ==> !r'.allowOnce)
  }

  predicate PendingFollows(g: Setting, w: World, e: Event, pending': map<Fp, Request>) {
    forall fp | fp in pending' ::
      || NewlyDrawn(g, w, e, fp, pending'[fp])
      || (&& fp in w.auth.pending && SameRequest(w.auth.pending[fp], pending'[fp])
          && (pending'[fp].allowOnce <==> w.auth.pending[fp].allowOnce || e == AllowOnceCmd(fp)))
  }

  /** A challenge leaves the server only when its device is trusted, or at the
      operator's word. */
  predicate MayLeave(g: Setting, w: World, e: Event, ch: Bytes) {
    || (e.HelloMsg? && ch == e.draw.challenge && g.c.fingerprint(e.hello.publicKey) in w.auth.trusted)
    || (e.ApproveCmd? && e.fp in w.auth.pending && ch == w.auth.pending[e.fp].challenge)
    || (e.AllowOnceCmd? && e.fp in w.auth.pending && ch == w.auth.pending[e.fp].challenge)
  }

  /** A session is installed only for a request whose own client has signed its
      challenge, and the request is gone afterwards. */
  predicate Stands(g: Setting, w: World, e: Event, i: Install, w': World) {
    && e.ResponseMsg? && e.fp in w.auth.pending
    && i.fp == e.fp && i.request == w.auth.pending[e.fp] && w.now <= i.at == w'.now
    && SessionKeyFor(g.c, i.request, e.signature) == Some(i.key)
    && Signature(i.request.publicKey, RequestBinding(g.c, i.request)) in w.signed
    && w'.auth.pending == w.auth.pending - {e.fp}
    && w'.auth.sessions == w.auth.sessions[e.fp := NewSession(i.request, i.key, i.at)]
  }

  predicate InstallsFollow(g: Setting, w: World, e: Event, w': World) {
    || w'.installs == w.installs
    || (|w'.installs| == |w.installs| + 1 && w'.installs == w.installs + [w'.installs[|w.installs|]]
        && Stands(g, w, e, w'.installs[|w.installs|], w') && w'.grants == w.grants)
  }

  /** Sessions come only from installs; everything else keeps or drops them. */
  predicate SessionsFollow(w: World, w': World) {
    w'.installs == w.installs ==>
      forall fp | fp in w'.auth.sessions :: fp in w.auth.sessions && Evolves(w.auth.sessions[fp], w'.auth.sessions[fp])
  }

  predicate GrantsFollow(w: World, e: Event, w': World) {
    if e.AllowOnceCmd? && e.fp in w.auth.pending then w'.grants == w.grants + [e.fp] else w'.grants == w.grants
  }

  predicate DrawsFollow(g: Setting, w: World, e: Event, w': World) {
    && w'.drawn == (if e.HelloMsg? then w.drawn + {e.draw.challenge} else w.drawn)
    && (forall ch | ch in w'.disclosed :: ch in w.disclosed || MayLeave(g, w, e, ch))
    && w.disclosed <= w'.disclosed
  }

  predicate SignaturesFollow(w: World, e: Event, w': World) {
    && (forall s | s in w'.signed :: s in w.signed || NotGuessed(w, s.message))
    && (e.HelloMsg? ==> w'.signed == w.signed)
  }

  /** All of it. */
  ghost predicate Follows(g: Setting, w: World, e: Event, w': World) {
    && PendingFollows(g, w, e, w'.auth.pending) && InstallsFollow(g, w, e, w') && SessionsFollow(w, w')
    && GrantsFollow(w, e, w') && DrawsFollow(g, w, e, w') && SignaturesFollow(w, e, w')
    && w.everTrusted + w'.auth.trusted.Keys <= w'.everTrusted
  }

  lemma HelloPending(g: Setting, a: Auth, h: Hello, draw: Fresh, now: int, allowed: bool, fpAllowed: bool)
    ensures var pending' := HandleHello(g.c, g.serverKey, a, h, draw, now, allowed, fpAllowed).0.pending;
            forall fp | fp in pending' ::
              if fp == g.c.fingerprint(h.publicKey) && (fp !in a.pending || pending'[fp] != a.pending[fp])
              then pending'[fp].challenge == draw.challenge && (fp !in a.trusted ==> !pending'[fp].allowOnce)
              else fp in a.pending && pending'[fp] == a.pending[fp]
  {
  }

  /** Most steps touch no request, except to drop it. */
  lemma OtherPending(g: Setting, w: World, e: Event, at: int)
    requires !e.HelloMsg? && !e.PingMsg? && !e.AllowOnceCmd?
    ensures var pending' := AuthAfter(g, w, e, at).pending;
            forall fp | fp in pending' :: fp in w.auth.pending && pending'[fp] == w.auth.pending[fp]
  {
    if e.Datagram? {
      BeatKeepsRest(g, w, e, at);
    }
  }

  lemma BeatKeepsRest(g: Setting, w: World, e: Event, at: int)
    requires e.Datagram?
    ensures var a' := AuthAfter(g, w, e, at);
            && a' == w.auth.(sessions := a'.sessions)
            && forall fp | fp in a'.sessions :: fp in w.auth.sessions && Evolves(w.auth.sessions[fp], a'.sessions[fp])
  {
    if e.udpAllowed && Heartbeat.Parse(e.data).Some? {
      BeatEffect(g.c, w.auth, w.table, Heartbeat.Parse(e.data).value, e.ip, e.port, at);
    }
  }

  lemma HelloPendingFollows(g: Setting, w: World, e: Event, at: int)
    requires e.HelloMsg?
    ensures PendingFollows(g, w, e, AuthAfter(g, w, e, at).pending)
  {
    HelloPending(g, w.auth, e.hello, e.draw, at, e.allowed, e.fpAllowed);
  }

  lemma OtherPendingFollows(g: Setting, w: World, e: Event, at: int)
    requires !e.HelloMsg? && !e.PingMsg? && !e.AllowOnceCmd?
    ensures PendingFollows(g, w, e, AuthAfter(g, w, e, at).pending)
  {
    OtherPending(g, w, e, at);
  }

  lemma PendingEffect(g: Setting, w: World, e: Event, at: int)
    ensures PendingFollows(g, w, e, AuthAfter(g, w, e, at).pending)
  {
    match e
    case HelloMsg(_, _, _, _) => HelloPendingFollows(g, w, e, at);
    case PingMsg(_) =>
    case AllowOnceCmd(_) =>
    case _ => OtherPendingFollows(g, w, e, at);
  }

  lemma DisclosureEffect(g: Setting, w: World, e: Event, at: int)
    ensures forall ch | ch in Disclosed(g, w, e, at) :: MayLeave(g, w, e, ch)
  {
  }

  lemma InstallEffect(g: Setting, w: World, e: Event, at: int)
    requires Enabled(g, w, e, at)
    ensures InstallsFollow(g, w, e, Next(g, w, e, at))
  {
    var w' := Next(g, w, e, at);
    if Installed(g, w, e, at) != [] {
      assert w'.installs == w.installs + [w'.installs[|w.installs|]];
      assert w'.grants == w.grants;
    }
  }

  lemma OtherSessions(g: Setting, w: World, e: Event, at: int)
    requires !e.ResponseMsg? && !e.Datagram?
    ensures var sessions' := AuthAfter(g, w, e, at).sessions;
            forall fp | fp in sessions' :: fp in w.auth.sessions && sessions'[fp] == w.auth.sessions[fp]
  {
  }

  lemma SessionsEffect(g: Setting, w: World, e: Event, at: int)
    ensures SessionsFollow(w, Next(g, w, e, at))
  {
    match e
    case Datagram(_, _, _, _) => BeatKeepsRest(g, w, e, at);
    case ResponseMsg(_, _) =>
    case _ => OtherSessions(g, w, e, at);
  }

  lemma SignatureEffect(g: Setting, w: World, e: Event, at: int)
    requires Enabled(g, w, e, at)
    ensures SignaturesFollow(w, e, Next(g, w, e, at))
  {
  }

  lemma StepFollows(g: Setting, w: World, e: Event, at: int)
    requires Enabled(g, w, e, at)
    ensures Follows(g, w, e, Next(g, w, e, at))
  {
    PendingEffect(g, w, e, at);
    DisclosureEffect(g, w, e, at);
    InstallEffect(g, w, e, at);
    SessionsEffect(g, w, e, at);
    SignatureEffect(g, w, e, at);
  }

  // -------------------------------------------------------------------------
  // Secrets

  predicate PendingSecrets(w: World) {
    && (forall fp | fp in w.auth.pending ::
          |w.auth.pending[fp].challenge| == CHALLENGE_LEN && w.auth.pending[fp].challenge in w.drawn)
    && (forall p, q | p in w.auth.pending && q in w.auth.pending
                      && w.auth.pending[p].challenge == w.auth.pending[q].challenge :: p == q)
    && w.disclosed <= w.drawn
  }

  predicate SignedSecrets(w: World) {
    forall s | s in w.signed :: NotGuessed(w, s.message)
  }

  /** No pending request has the challenge. */
  predicate Spent(w: World, ch: Bytes) {
    |ch| == CHALLENGE_LEN && ch in w.drawn && forall fp | fp in w.auth.pending :: w.auth.pending[fp].challenge != ch
  }

  predicate AllDifferent(installs: seq<Install>) {
    forall i, j | 0 <= i < j < |installs| :: installs[i].request.challenge != installs[j].request.challenge
  }

  predicate InstallSecrets(w: World) {
    (forall i | i in w.installs :: Spent(w, i.request.challenge)) && AllDifferent(w.installs)
  }

  lemma StillDifferent(installs: seq<Install>, i: Install)
    requires AllDifferent(installs) && forall x | x in installs :: x.request.challenge != i.request.challenge
    ensures AllDifferent(installs + [i])
  {
  }

  /** Challenges are drawn once, belong to one request or one session, and are
      in no signature before they leave the server. */
  predicate Secrets(w: World) {
    PendingSecrets(w) && SignedSecrets(w) && InstallSecrets(w)
  }

  lemma KeepsPendingSecrets(g: Setting, w: World, e: Event, w': World)
    requires PendingSecrets(w) && PendingFollows(g, w, e, w'.auth.pending) && DrawsFollow(g, w, e, w')
    requires e.HelloMsg? ==> |e.draw.challenge| == CHALLENGE_LEN && e.draw.challenge !in w.drawn
    ensures PendingSecrets(w')
  {
  }

  lemma KeepsSignedSecrets(g: Setting, w: World, e: Event, w': World)
    requires SignedSecrets(w) && SignaturesFollow(w, e, w') && DrawsFollow(g, w, e, w')
    requires e.HelloMsg? ==> forall s | s in w.signed :: !BeginsWith(s.message, e.draw.challenge)
    ensures SignedSecrets(w')
  {
    forall s | s in w'.signed
      ensures NotGuessed(w', s.message)
    {
      assert NotGuessed(w, s.message);
      if e.HelloMsg? {
        assert !BeginsWith(s.message, e.draw.challenge);
      }
    }
  }

  lemma StaysSpent(g: Setting, w: World, e: Event, w': World, ch: Bytes)
    requires PendingFollows(g, w, e, w'.auth.pending) && DrawsFollow(g, w, e, w') && Spent(w, ch)
    requires e.HelloMsg? ==> e.draw.challenge !in w.drawn
    ensures Spent(w', ch)
  {
  }

  lemma BecomesSpent(g: Setting, w: World, e: Event, i: Install, w': World)
    requires PendingSecrets(w) && Stands(g, w, e, i, w') && DrawsFollow(g, w, e, w')
    ensures Spent(w', i.request.challenge)
  {
  }

  lemma KeepsInstallSecrets(g: Setting, w: World, e: Event, w': World)
    requires PendingSecrets(w) && InstallSecrets(w)
    requires PendingFollows(g, w, e, w'.auth.pending) && DrawsFollow(g, w, e, w') && InstallsFollow(g, w, e, w')
    requires e.HelloMsg? ==> e.draw.challenge !in w.drawn
    ensures InstallSecrets(w')
  {
    forall x | x in w.installs
      ensures Spent(w', x.request.challenge)
    {
      StaysSpent(g, w, e, w', x.request.challenge);
    }
    if w'.installs != w.installs {
      var i := w'.installs[|w.installs|];
      BecomesSpent(g, w, e, i, w');
      StillDifferent(w.installs, i);
    }
  }

  lemma NextKeepsSecrets(g: Setting, w: World, e: Event, at: int)
    requires Enabled(g, w, e, at) && Secrets(w)
    ensures Secrets(Next(g, w, e, at))
  {
    StepFollows(g, w, e, at);
    KeepsPendingSecrets(g, w, e, Next(g, w, e, at));
    KeepsSignedSecrets(g, w, e, Next(g, w, e, at));
    KeepsInstallSecrets(g, w, e, Next(g, w, e, at));
  }

  // -------------------------------------------------------------------------
  // Counting

  function SessionsOf(installs: seq<Install>, fp: Fp): nat {
    if installs == [] then 0
    else SessionsOf(installs[..|installs| - 1], fp) + if installs[|installs| - 1].fp == fp then 1 else 0
  }

  function GrantsOf(grants: seq<Fp>, fp: Fp): nat {
    if grants == [] then 0
    else GrantsOf(grants[..|grants| - 1], fp) + if grants[|grants| - 1] == fp then 1 else 0
  }

  lemma OneMoreSession(installs: seq<Install>, i: Install, fp: Fp)
    ensures SessionsOf(installs + [i], fp) == SessionsOf(installs, fp) + if i.fp == fp then 1 else 0
  {
    assert (installs + [i])[..|installs|] == installs;
  }

  lemma OneMoreGrant(grants: seq<Fp>, f: Fp, fp: Fp)
    ensures GrantsOf(grants + [f], fp) == GrantsOf(grants, fp) + if f == fp then 1 else 0
  {
    assert (grants + [f])[..|grants|] == grants;
  }

  /** A grant that is still to be used. */
  function Outstanding(a: Auth, fp: Fp): nat {
    if fp in a.pending && a.pending[fp].allowOnce then 1 else 0
  }

  predicate Counted(w: World, fp: Fp) {
    SessionsOf(w.installs, fp) + Outstanding(w.auth, fp) <= GrantsOf(w.grants, fp)
  }

  /** A request without a grant is still secret; and the device's session, and
      every session it had, is good for one use. */
  predicate OneUse(w: World, fp: Fp) {
    && StillSecret(w, fp)
    && (fp in w.auth.sessions ==> w.auth.sessions[fp].singleUse)
    && (forall i | i in w.installs && i.fp == fp :: i.request.allowOnce)
  }

  /** A response that stands answers a challenge that has left the server. */
  lemma AnsweredWasDisclosed(g: Setting, w: World, e: Event, i: Install, w': World)
    requires Secrets(w) && Stands(g, w, e, i, w')
    ensures i.request.challenge in w.disclosed
  {
    var r := i.request;
    var message := RequestBinding(g.c, r);
    assert message[..CHALLENGE_LEN] == r.challenge;
    assert NotGuessed(w, Signature(r.publicKey, message).message);
  }

  lemma KeepsCount(g: Setting, w: World, e: Event, w': World, fp: Fp)
    requires Secrets(w) && Counted(w, fp) && OneUse(w, fp) && fp !in w.auth.trusted
    requires PendingFollows(g, w, e, w'.auth.pending) && InstallsFollow(g, w, e, w') && GrantsFollow(w, e, w')
    ensures Counted(w', fp)
  {
    if w'.installs != w.installs {
      AnsweredWasDisclosed(g, w, e, w'.installs[|w.installs|], w');
      OneMoreSession(w.installs, w'.installs[|w.installs|], fp);
    } else if e.AllowOnceCmd? && e.fp in w.auth.pending {
      OneMoreGrant(w.grants, e.fp, fp);
    }
  }

  predicate StillSecret(w: World, fp: Fp) {
    fp in w.auth.pending && !w.auth.pending[fp].allowOnce ==> w.auth.pending[fp].challenge !in w.disclosed
  }

  lemma KeepsSecret(g: Setting, w: World, e: Event, w': World, fp: Fp)
    requires PendingSecrets(w) && StillSecret(w, fp) && fp !in w.auth.trusted
    requires PendingFollows(g, w, e, w'.auth.pending) && DrawsFollow(g, w, e, w')
    requires e.HelloMsg? ==> e.draw.challenge !in w.drawn
    requires fp !in w'.auth.trusted && (e.ApproveCmd? && e.fp in w.auth.pending ==> e.fp in w'.auth.trusted)
    ensures StillSecret(w', fp)
  {
  }

  lemma KeepsOneUse(g: Setting, w: World, e: Event, w': World, fp: Fp)
    requires Secrets(w) && OneUse(w, fp) && fp !in w.auth.trusted
    requires InstallsFollow(g, w, e, w') && SessionsFollow(w, w') && StillSecret(w', fp)
    ensures OneUse(w', fp)
  {
    if w'.installs != w.installs {
      AnsweredWasDisclosed(g, w, e, w'.installs[|w.installs|], w');
    }
  }

  lemma NextKeepsRation(g: Setting, w: World, e: Event, at: int, fp: Fp)
    requires Enabled(g, w, e, at) && Secrets(w) && Counted(w, fp) && OneUse(w, fp) && fp !in w.auth.trusted
    requires fp !in AuthAfter(g, w, e, at).trusted
    ensures Counted(Next(g, w, e, at), fp) && OneUse(Next(g, w, e, at), fp)
  {
    StepFollows(g, w, e, at);
    KeepsCount(g, w, e, Next(g, w, e, at), fp);
    KeepsSecret(g, w, e, Next(g, w, e, at), fp);
    KeepsOneUse(g, w, e, Next(g, w, e, at), fp);
  }

  // -------------------------------------------------------------------------
  // Runs

  predicate Recorded(w: World) {
    Secrets(w) && w.auth.trusted.Keys <= w.everTrusted
  }

  lemma SecretNext(g: Setting, steps: seq<Step>, worlds: seq<World>, k: nat)
    requires IsRun(g, steps, worlds) && 0 < k < |worlds| && Recorded(worlds[k - 1])
    ensures Recorded(worlds[k])
  {
    StepInto(g, steps, worlds, k);
    NextKeepsSecrets(g, worlds[k - 1], steps[k - 1].event, steps[k - 1].at);
  }

  /** In every run challenges are drawn once, belong to one request or one
      session, and are signed only after they have left the server. */
  lemma {:induction false} AlwaysSecret(g: Setting, steps: seq<Step>, worlds: seq<World>, k: nat)
    requires IsRun(g, steps, worlds) && k < |worlds|
    ensures Recorded(worlds[k])
  {
    if k > 0 {
      AlwaysSecret(g, steps, worlds, k - 1);
      SecretNext(g, steps, worlds, k);
    }
  }

  /** A device that was never trusted has no more than it was granted. */
  predicate Rationed(w: World, fp: Fp) {
    fp !in w.everTrusted ==> Counted(w, fp) && OneUse(w, fp)
  }

  lemma RationNext(g: Setting, steps: seq<Step>, worlds: seq<World>, k: nat, fp: Fp)
    requires IsRun(g, steps, worlds) && 0 < k < |worlds| && Rationed(worlds[k - 1], fp)
    ensures Rationed(worlds[k], fp)
  {
    AlwaysSecret(g, steps, worlds, k - 1);
    StepInto(g, steps, worlds, k);
    if fp !in worlds[k].everTrusted {
      NextKeepsRation(g, worlds[k - 1], steps[k - 1].event, steps[k - 1].at, fp);
    }
  }

  lemma {:induction false} AlwaysRationed(g: Setting, steps: seq<Step>, worlds: seq<World>, k: nat, fp: Fp)
    requires IsRun(g, steps, worlds) && k < |worlds|
    ensures Rationed(worlds[k], fp)
  {
    if k > 0 {
      AlwaysRationed(g, steps, worlds, k - 1, fp);
      RationNext(g, steps, worlds, k, fp);
    }
  }

  /** No session without a grant. Over a whole run, a device that is never
      trusted gets at most as many sessions as the operator allowed it once;
      each of them was granted before it was installed, and is single-use.
      HELLOs again and again, PINGs, expiry and bad signatures do not change
      the count. */
  lemma NoSessionWithoutGrant(g: Setting, steps: seq<Step>, worlds: seq<World>, k: nat, fp: Fp)
    requires IsRun(g, steps, worlds) && k < |worlds| && fp !in worlds[k].everTrusted
    ensures SessionsOf(worlds[k].installs, fp) + Outstanding(worlds[k].auth, fp) <= GrantsOf(worlds[k].grants, fp)
    ensures fp in worlds[k].auth.sessions ==> worlds[k].auth.sessions[fp].singleUse
    ensures forall i | i in worlds[k].installs && i.fp == fp :: i.request.allowOnce
  {
    AlwaysRationed(g, steps, worlds, k, fp);
  }
}
