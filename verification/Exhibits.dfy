/** Runs of the server that show where it falls short: a waiting queue past its
    limit, a heartbeat accepted twice, and a client that gives up on a session it
    has just been given. They also show that runs get as far as sessions and
    heartbeats, under the rate limiters' own verdicts. */
module Exhibits {
  import opened Wrappers
  import opened Wire
  import opened Crypto
  import opened AuthModel
  import opened Heartbeat
  import opened StreamModel
  import opened RateLimits
  import opened Server
  import AuthServer
  import ClientAuth
  import Gateway
  import Grants
  import Rates
  import Replay

  // -------------------------------------------------------------------------
  // Making runs

  /** A server that has just started, at time zero. */
  function Started(trusted: map<Fp, Trusted>): World {
    World(Auth(map[], [], map[], trusted, map[]), map[], 0, 0, {}, {}, {}, [], [], [], [], trusted.Keys,
          Limits(map[], map[], map[]))
  }

  function Last(worlds: seq<World>): World
    requires worlds != []
  {
    worlds[|worlds| - 1]
  }

  lemma Extended(g: Setting, steps: seq<Step>, worlds: seq<World>, e: Event, at: int)
    returns (steps': seq<Step>, worlds': seq<World>)
    requires IsRun(g, steps, worlds) && Enabled(g, Last(worlds), e, at)
    ensures IsRun(g, steps', worlds') && Last(worlds') == Next(g, Last(worlds), e, at)
    ensures |steps'| == |steps| + 1
  {
    var s := Step(e, at);
    steps', worlds' := steps + [s], worlds + [Next(g, Last(worlds), e, at)];
    forall k | 0 <= k < |steps'|
      ensures Goes(g, worlds'[k], steps'[k], worlds'[k + 1])
    {
      if k < |steps| {
        assert Goes(g, worlds[k], steps[k], worlds[k + 1]);
      }
    }
  }

  /** Small numbers as byte strings, all different. */
  function Label(n: nat, w: nat): (b: Bytes)
    requires n < 65536 && w >= 2
    ensures |b| == w
  {
    Room(w);
    Pack(n, w)
  }

  lemma {:induction false} Room(w: nat)
    requires w >= 2
    ensures Pow256(w) >= 65536
  {
    if w == 2 {
      assert Pow256(2) == 65536;
    } else {
      Room(w - 1);
    }
  }

  lemma LabelsDiffer(m: nat, n: nat, w: nat)
    requires m < 65536 && n < 65536 && w >= 2 && Label(m, w) == Label(n, w)
    ensures m == n
  {
    Room(w);
    UnpackPack(m, w);
    UnpackPack(n, w);
  }

  // -------------------------------------------------------------------------
  // A queue past its limit

  function DeviceKey(n: nat): Bytes
    requires n < 65536
  {
    Label(n, KEY_LEN)
  }

  function Name(g: Setting, n: nat): Fp
    requires n < 65536
  {
    g.c.fingerprint(DeviceKey(n))
  }

  lemma NamesDiffer(g: Setting, m: nat, n: nat)
    requires g.c.Lawful() && m < 65536 && n < 65536 && Name(g, m) == Name(g, n)
    ensures m == n
  {
    LabelsDiffer(m, n, KEY_LEN);
  }

  /** Every device has an address of its own. */
  function Address(n: nat): (ip: string)
    ensures |ip| == n
  {
    seq(n, _ => 'x')
  }

  /** Device number `n` says HELLO, the server draws challenge number `draw`, and
      both limiters let it pass. */
  function Greeting(n: nat, draw: nat): Event
    requires n < 65536 && draw < 65536
  {
    HelloMsg(Hello("", "", DeviceKey(n), Address(n), Given(Zeros(KEY_LEN)), Some(n)),
             Fresh(Label(draw, CHALLENGE_LEN), []), true, true)
  }

  /** Nobody is trusted or blocked, nobody has signed, and the challenges drawn
      are the first `draws` ones. */
  predicate Strangers(w: World, draws: nat) {
    && w.auth.trusted == map[] && w.auth.blocked == map[] && w.everTrusted == {}
    && w.signed == {} && w.now == 0 && w.lastTick == 0
    && forall ch | ch in w.drawn :: exists n: nat :: n < draws && n < 65536 && ch == Label(n, CHALLENGE_LEN)
  }

  /** The limiters would let a HELLO from this address pass. */
  predicate Passes(l: Limits, ip: string) {
    && WouldAllow(l.hellos, ip, 0, RATE_LIMIT_WINDOW, RATE_LIMIT_MAX)
    && WouldAllow(l.names, ip, 0, PENDING_FP_WINDOW, PENDING_FP_MAX)
  }

  function Heeded(l: Limits, ip: string): Limits {
    l.(hellos := Record(l.hellos, ip, 0), names := Record(l.names, ip, 0))
  }

  /** Nothing was heard from the addresses from number `n` on. */
  ghost predicate Unheard(l: Limits, n: nat) {
    forall m: nat | n <= m :: Times(l.hellos, Address(m)) == [] && Times(l.names, Address(m)) == []
  }

  lemma HeededStaysUnheard(l: Limits, n: nat)
    requires Unheard(l, n)
    ensures Passes(l, Address(n)) && Unheard(Heeded(l, Address(n)), n + 1)
  {
    forall m: nat | n + 1 <= m
      ensures Times(Heeded(l, Address(n)).hellos, Address(m)) == []
      ensures Times(Heeded(l, Address(n)).names, Address(m)) == []
    {
      assert |Address(m)| != |Address(n)|;
    }
  }

  /** The first HELLO of an address is not too many, nor is the second. */
  lemma SecondPasses(l: Limits, n: nat)
    requires Unheard(l, n)
    ensures Passes(Heeded(l, Address(n)), Address(n))
    ensures Unheard(Heeded(Heeded(l, Address(n)), Address(n)), n + 1)
  {
    var once := Heeded(l, Address(n));
    HeededStaysUnheard(l, n);
    assert Times(once.hellos, Address(n)) == [0] && Times(once.names, Address(n)) == [0];
    assert [0][..0] == [];
    forall m: nat | n + 1 <= m
      ensures Times(Heeded(once, Address(n)).hellos, Address(m)) == []
      ensures Times(Heeded(once, Address(n)).names, Address(m)) == []
    {
      assert |Address(m)| != |Address(n)|;
      assert Times(once.hellos, Address(m)) == [];
    }
  }

  lemma GreetingEnabled(g: Setting, w: World, n: nat, draws: nat)
    requires Strangers(w, draws) && Passes(w.limits, Address(n)) && n < 65536 && draws < 65536
    ensures Enabled(g, w, Greeting(n, draws), 0)
  {
    var e := Greeting(n, draws);
    if e.draw.challenge in w.drawn {
      var m: nat :| m < draws && m < 65536 && e.draw.challenge == Label(m, CHALLENGE_LEN);
      LabelsDiffer(m, draws, CHALLENGE_LEN);
      assert false;
    }
  }

  lemma GreetingEffect(g: Setting, w: World, n: nat, draws: nat)
    requires Strangers(w, draws) && n < 65536 && draws < 65536 && MakeRoom(w.auth).Some?
    ensures var e := Greeting(n, draws);
            var w' := Next(g, w, e, 0);
            && Strangers(w', draws + 1) && w'.limits == Heeded(w.limits, Address(n))
            && w'.auth == Enqueue(MakeRoom(w.auth).value, Name(g, n), NewRequest(e.hello, Zeros(KEY_LEN), e.draw, 0))
  {
    var w' := Next(g, w, Greeting(n, draws), 0);
    forall ch | ch in w'.drawn
      ensures exists m: nat :: m < draws + 1 && m < 65536 && ch == Label(m, CHALLENGE_LEN)
    {
      if ch in w.drawn {
        var m: nat :| m < draws && m < 65536 && ch == Label(m, CHALLENGE_LEN);
      } else {
        assert ch == Label(draws, CHALLENGE_LEN);
      }
    }
  }

  /** One more greeting at the end of a run: the request joins the queue. */
  lemma Greeted(g: Setting, steps: seq<Step>, worlds: seq<World>, n: nat, draws: nat)
    returns (steps': seq<Step>, worlds': seq<World>, r: Request)
    requires IsRun(g, steps, worlds) && Strangers(Last(worlds), draws) && n < 65536 && draws < 65536
    requires Passes(Last(worlds).limits, Address(n)) && MakeRoom(Last(worlds).auth).Some?
    ensures IsRun(g, steps', worlds') && Strangers(Last(worlds'), draws + 1)
    ensures Last(worlds').limits == Heeded(Last(worlds).limits, Address(n))
    ensures Last(worlds').auth == Enqueue(MakeRoom(Last(worlds).auth).value, Name(g, n), r)
  {
    var e := Greeting(n, draws);
    GreetingEnabled(g, Last(worlds), n, draws);
    GreetingEffect(g, Last(worlds), n, draws);
    steps', worlds' := Extended(g, steps, worlds, e, 0);
    r := NewRequest(e.hello, Zeros(KEY_LEN), e.draw, 0);
  }

  /** Devices 1 to `n` are waiting, behind the stale name of device 0. */
  ghost predicate Crowd(g: Setting, w: World, n: nat) {
    && Strangers(w, n + 2) && Unheard(w.limits, n + 1)
    && |w.auth.pending| == n
    && (forall fp | fp in w.auth.pending :: exists m: nat :: 1 <= m <= n && m < 65536 && fp == Name(g, m))
    && w.auth.order != [] && w.auth.order[0] == Name(g, 0)
  }

  lemma NotInCrowd(g: Setting, w: World, n: nat, m: nat)
    requires g.c.Lawful() && Crowd(g, w, n) && m < 65536 && (m == 0 || n < m)
    ensures Name(g, m) !in w.auth.pending
  {
    if Name(g, m) in w.auth.pending {
      var k: nat :| 1 <= k <= n && k < 65536 && Name(g, m) == Name(g, k);
      NamesDiffer(g, m, k);
      assert false;
    }
  }

  lemma DropOneOfTwo(fp: Fp, r: Request, q: Request, a: Auth)
    requires a.pending == map[] && a.order == []
    ensures DropPending(Enqueue(Enqueue(a, fp, r), fp, q), fp) == a.(order := [fp])
  {
    assert [fp] + [fp] == [fp, fp] && [fp, fp][1..] == [fp];
    assert Enqueue(Enqueue(a, fp, r), fp, q).pending - {fp} == map[];
  }

  lemma RejectionEffect(g: Setting, w: World, fp: Fp, draws: nat)
    requires Strangers(w, draws)
    ensures Enabled(g, w, RejectCmd(fp), 0)
    ensures var w' := Next(g, w, RejectCmd(fp), 0);
            Strangers(w', draws) && w'.auth == DropPending(w.auth, fp) && w'.limits == w.limits
  {
  }

  lemma TwoGreetings(g: Setting) returns (steps: seq<Step>, worlds: seq<World>, r: Request, q: Request)
    ensures IsRun(g, steps, worlds) && Strangers(Last(worlds), 2) && Unheard(Last(worlds).limits, 1)
    ensures Last(worlds).auth == Enqueue(Enqueue(Started(map[]).auth, Name(g, 0), r), Name(g, 0), q)
  {
    steps, worlds := [], [Started(map[])];
    HeededStaysUnheard(Started(map[]).limits, 0);
    SecondPasses(Started(map[]).limits, 0);
    steps, worlds, r := Greeted(g, steps, worlds, 0, 0);
    steps, worlds, q := Greeted(g, steps, worlds, 0, 1);
  }

  /** A device that says HELLO twice and is rejected leaves its name behind. */
  lemma StaleNameStays(g: Setting) returns (steps: seq<Step>, worlds: seq<World>)
    ensures IsRun(g, steps, worlds) && Crowd(g, Last(worlds), 0)
  {
    var fp := Name(g, 0);
    var r, q;
    steps, worlds, r, q := TwoGreetings(g);
    DropOneOfTwo(fp, r, q, Started(map[]).auth);
    RejectionEffect(g, Last(worlds), fp, 2);
    steps, worlds := Extended(g, steps, worlds, RejectCmd(fp), 0);
  }

  lemma CrowdGrows(g: Setting, w: World, n: nat, w': World, r: Request)
    requires 1 <= n <= MAX_PENDING && Crowd(g, w, n - 1) && Name(g, n) !in w.auth.pending && Strangers(w', n + 2)
    requires Unheard(w'.limits, n + 1)
    requires w'.auth == Enqueue(w.auth, Name(g, n), r)
    ensures Crowd(g, w', n)
  {
    assert w'.auth.pending.Keys == w.auth.pending.Keys + {Name(g, n)};
    forall fp | fp in w'.auth.pending
      ensures exists m: nat :: 1 <= m <= n && m < 65536 && fp == Name(g, m)
    {
      if fp in w.auth.pending {
        var m: nat :| 1 <= m <= n - 1 && m < 65536 && fp == Name(g, m);
      }
    }
  }

  /** Then the queue fills up behind it. */
  lemma {:induction false} CrowdGathers(g: Setting, n: nat) returns (steps: seq<Step>, worlds: seq<World>)
    requires g.c.Lawful() && n <= MAX_PENDING
    ensures IsRun(g, steps, worlds) && Crowd(g, Last(worlds), n)
  {
    if n == 0 {
      steps, worlds := StaleNameStays(g);
    } else {
      steps, worlds := CrowdGathers(g, n - 1);
      var w := Last(worlds);
      var r;
      NotInCrowd(g, w, n - 1, n);
      HeededStaysUnheard(w.limits, n);
      steps, worlds, r := Greeted(g, steps, worlds, n, n + 1);
      CrowdGrows(g, w, n, Last(worlds), r);
    }
  }

  /** And the next unknown device makes the waiting requests one more than the
      limit, in a run in which nobody was ever trusted. Each device has its own
      address, and so the rate limiters let all of them pass. */
  lemma QueueOutgrowsLimit(g: Setting) returns (steps: seq<Step>, worlds: seq<World>)
    requires g.c.Lawful()
    ensures IsRun(g, steps, worlds) && Last(worlds).everTrusted == {}
    ensures |Last(worlds).auth.pending| == MAX_PENDING + 1
  {
    steps, worlds := CrowdGathers(g, MAX_PENDING);
    var n, w := MAX_PENDING + 1, Last(worlds);
    var r;
    NotInCrowd(g, w, MAX_PENDING, 0);
    NotInCrowd(g, w, MAX_PENDING, n);
    HeededStaysUnheard(w.limits, n);
    steps, worlds, r := Greeted(g, steps, worlds, n, n + 1);
    OverLimit(w.auth, Name(g, 0), Name(g, n), r);
  }

  lemma OverLimit(a: Auth, stale: Fp, fp: Fp, r: Request)
    requires a.order != [] && a.order[0] == stale && stale !in a.pending
    requires fp !in a.pending && |a.pending| == MAX_PENDING
    ensures |Enqueue(MakeRoom(a).value, fp, r).pending| == MAX_PENDING + 1
  {
    assert a.pending - {stale} == a.pending;
    assert a.pending[fp := r].Keys == a.pending.Keys + {fp};
  }

  // -------------------------------------------------------------------------
  // A heartbeat accepted twice

  /** A session with this key, open to this address, that lives on, and so does
      the time to the next cleanup tick, until `until`. */
  predicate Listening(g: Setting, w: World, name: Fp, key: Bytes, ip: string, until: int) {
    && name in w.auth.sessions && w.auth.sessions[name].key == key && !w.auth.sessions[name].Expired(until)
    && (w.auth.sessions[name].udpIp.None? || w.auth.sessions[name].udpIp == Some(ip))
    && w.now <= until <= w.lastTick + g.tickGap
  }

  /** A heartbeat for this session alone, in time from `from` to `until`. */
  predicate Fitting(c: Suite, w: World, name: Fp, key: Bytes, b: Beat, from: int, until: int) {
    && b.Valid() && b.name == name && TagVerifies(c, key, b) && OneKeyFor(c, w, b)
    && WithinSkew(from, b) && WithinSkew(until, b)
  }

  lemma HeardSession(c: Suite, a: Auth, t: Table, b: Beat, ip: string, now: int)
    requires b.Valid() && NonceTaken(OnBeat(c, a, t, b, ip, 0, now).2)
    ensures b.name in a.sessions && b.name in OnBeat(c, a, t, b, ip, 0, now).0.sessions
    ensures var s, s' := a.sessions[b.name], OnBeat(c, a, t, b, ip, 0, now).0.sessions[b.name];
            s'.key == s.key && s'.expiresAt == s.expiresAt && s'.udpIp == Some(ip)
  {
    BeatEffect(c, a, t, b, ip, 0, now);
  }

  /** What a step with the datagram of `b` changes, as far as it matters here. */
  predicate After(g: Setting, w: World, b: Beat, ip: string, at: int, w': World)
    requires b.Valid()
  {
    && w'.auth == OnBeat(g.c, w.auth, w.table, b, ip, 0, at).0
    && w'.installs == w.installs && w'.now == at && w'.lastTick == w.lastTick
  }

  lemma DatagramEffect(g: Setting, w: World, b: Beat, ip: string, at: int)
    requires b.Valid() && Parse(Write(b)) == Some(b) && b.name in w.auth.sessions
    requires NonceTaken(OnBeat(g.c, w.auth, w.table, b, ip, 0, at).2)
    ensures var w' := Next(g, w, Datagram(Write(b), ip, 0, true), at);
            && After(g, w, b, ip, at, w') && w'.limits.datagrams == Record(w.limits.datagrams, ip, at)
            && w'.accepts == w.accepts + [Accept(b, ip, w.auth.sessions[b.name].key, at)]
  {
  }

  lemma StillListening(g: Setting, w: World, key: Bytes, ip: string, b: Beat, at: int, until: int, w': World)
    requires Listening(g, w, b.name, key, ip, until) && b.Valid() && After(g, w, b, ip, at, w') && at <= until
    requires NonceTaken(OnBeat(g.c, w.auth, w.table, b, ip, 0, at).2)
    ensures Listening(g, w', b.name, key, ip, until)
  {
    HeardSession(g.c, w.auth, w.table, b, ip, at);
  }

  /** One more heartbeat at the end of a run, at a time at which the limiter lets
      it through, with a nonce that is not among the last few: it is accepted. */
  lemma Heard(g: Setting, steps: seq<Step>, worlds: seq<World>, key: Bytes, ip: string, b: Beat, at: int, until: int)
    returns (steps': seq<Step>, worlds': seq<World>)
    requires IsRun(g, steps, worlds) && Listening(g, Last(worlds), b.name, key, ip, until)
    requires Last(worlds).now <= at <= until && Fitting(g.c, Last(worlds), b.name, key, b, at, until)
    requires WouldAllow(Last(worlds).limits.datagrams, ip, at, UDP_RATE_LIMIT_WINDOW, UDP_RATE_LIMIT_PACKETS)
    requires b.nonce !in Replay.LastFew(Replay.NoncesUnder(Last(worlds).accepts, key))
    ensures IsRun(g, steps', worlds') && Listening(g, Last(worlds'), b.name, key, ip, until)
    ensures Last(worlds').installs == Last(worlds).installs && Last(worlds').now == at
    ensures Last(worlds').limits.datagrams == Record(Last(worlds).limits.datagrams, ip, at)
    ensures Last(worlds').accepts == Last(worlds).accepts + [Accept(b, ip, key, at)]
  {
    var w := Last(worlds);
    Replay.AlwaysKnown(g, steps, worlds, |steps|);
    ParseWrite(b, []);
    Replay.TakenExactly(g.c, Last(worlds).auth, Last(worlds).table, b, ip, 0, at);
    assert Write(b) + [] == Write(b);
    ParseWrite(b, []);
    DatagramEffect(g, w, b, ip, at);
    StillListening(g, w, key, ip, b, at, until, Next(g, w, Datagram(Write(b), ip, 0, true), at));
    steps', worlds' := Extended(g, steps, worlds, Datagram(Write(b), ip, 0, true), at);
  }

  // -------------------------------------------------------------------------
  // What a run can go on with

  /** Until the next cleanup tick is due, at any time from now on, a run can go on
      with any operator command, PING, closed socket, collection, tick or round. */
  lemma AnythingCanCome(g: Setting, w: World, e: Event, at: int)
    requires !e.HelloMsg? && !e.ResponseMsg? && !e.Datagram? && !e.OtherSigns? && !e.HonestSigns?
    ensures Enabled(g, w, e, at) <==> w.now <= at <= w.lastTick + g.tickGap
  {
  }

  /** With any HELLO that draws a new challenge, under exactly one pair of verdicts. */
  lemma AnyHelloCanCome(g: Setting, w: World, h: Hello, draw: Fresh, at: int) returns (allowed: bool, fpAllowed: bool)
    requires w.now <= at <= w.lastTick + g.tickGap && |draw.challenge| == 32 && draw.challenge !in w.drawn
    requires forall s | s in w.signed :: |s.message| < 32 || s.message[..32] != draw.challenge
    ensures forall v1, v2 :: Enabled(g, w, HelloMsg(h, draw, v1, v2), at) <==> v1 == allowed && v2 == fpAllowed
  {
    allowed := WouldAllow(w.limits.hellos, h.ip, at, RATE_LIMIT_WINDOW, RATE_LIMIT_MAX);
    fpAllowed := WouldAllow(w.limits.names, h.ip, at, PENDING_FP_WINDOW, PENDING_FP_MAX);
  }

  /** With any bytes at all from anywhere, under exactly one verdict, unless they
      are a heartbeat that by chance fits two keys. */
  lemma AnyDatagramCanCome(g: Setting, w: World, data: Bytes, ip: string, port: nat, at: int) returns (allowed: bool)
    requires w.now <= at <= w.lastTick + g.tickGap && (Parse(data).Some? ==> OneKeyFor(g.c, w, Parse(data).value))
    ensures forall v :: Enabled(g, w, Datagram(data, ip, port, v), at) <==> v == allowed
  {
    allowed := WouldAllow(w.limits.datagrams, ip, at, UDP_RATE_LIMIT_WINDOW, UDP_RATE_LIMIT_PACKETS);
  }

  /** With an answer without a signature, with one that anyone has made and that
      makes no session, and with the signature of anyone but the honest client on
      anything that does not begin with a challenge still inside the server. */
  lemma AnyAnswerCanCome(g: Setting, w: World, fp: Fp, signature: Option<Signature>, other: Signature, at: int)
    requires w.now <= at <= w.lastTick + g.tickGap && (signature.Some? ==> signature.value in w.signed)
    requires VerifyChallenge(g.c, w.auth, fp, signature, at).1 != Authenticated
    requires other.signer != g.honest
    requires |other.message| < 32 || other.message[..32] !in w.drawn || other.message[..32] in w.disclosed
    ensures Enabled(g, w, ResponseMsg(fp, signature), at) && Enabled(g, w, OtherSigns(other), at)
  {
  }

  // -------------------------------------------------------------------------
  // A pace that the datagram limiter allows

  const PACE := 6

  /** The times of `n` heartbeats from `from` on. */
  function Paced(from: int, n: nat): (ts: seq<int>)
    ensures |ts| == n && forall i | 0 <= i < n :: ts[i] == from + PACE * i
  {
    seq(n, i => from + PACE * i)
  }

  lemma {:induction false} FewSinceThen(ts: seq<int>, k: nat, cutoff: int)
    requires k <= |ts| && forall i | 0 <= i < k :: ts[i] < cutoff
    ensures CountSince(ts, cutoff) <= |ts| - k
  {
    if |ts| > 0 {
      FewSinceThen(ts[..|ts| - 1], if k == |ts| then k - 1 else k, cutoff);
    }
  }

  /** One heartbeat every six milliseconds is at most 167 in a second. */
  lemma PaceIsAllowed(h: History, ip: string, before: seq<int>, from: int, n: nat)
    requires Times(h, ip) == before + Paced(from, n)
    requires forall i | 0 <= i < |before| :: before[i] < from - UDP_RATE_LIMIT_WINDOW
    ensures WouldAllow(h, ip, from + PACE * n, UDP_RATE_LIMIT_WINDOW, UDP_RATE_LIMIT_PACKETS)
  {
    var recent := if n < 167 then n else 166;
    FewSinceThen(before + Paced(from, n), |before| + n - recent, from + PACE * n - UDP_RATE_LIMIT_WINDOW);
  }

  lemma OneMorePaced(from: int, n: nat)
    ensures Paced(from, n + 1) == Paced(from, n) + [from + PACE * n]
  {
  }

  // -------------------------------------------------------------------------
  // Many heartbeats

  /** The first `n` of the heartbeats, as accepted. */
  function AcceptsOf(beats: seq<Beat>, n: nat, ip: string, key: Bytes, from: int): (r: seq<Accept>)
    requires n <= |beats|
    ensures |r| == n && forall i | 0 <= i < n :: r[i] == Accept(beats[i], ip, key, from + PACE * i)
  {
    seq(n, i requires 0 <= i < n => Accept(beats[i], ip, key, from + PACE * i))
  }

  function NoncesOf(beats: seq<Beat>, n: nat): (r: seq<Bytes>)
    requires n <= |beats|
    ensures |r| == n && forall i | 0 <= i < n :: r[i] == beats[i].nonce
  {
    seq(n, i requires 0 <= i < n => beats[i].nonce)
  }

  lemma OneMoreAccept(beats: seq<Beat>, n: nat, ip: string, key: Bytes, from: int)
    requires 0 < n <= |beats|
    ensures AcceptsOf(beats, n, ip, key, from)
            == AcceptsOf(beats, n - 1, ip, key, from) + [Accept(beats[n - 1], ip, key, from + PACE * (n - 1))]
  {
  }

  lemma {:induction false} AcceptedNonces(beats: seq<Beat>, n: nat, ip: string, key: Bytes, from: int)
    requires n <= |beats|
    ensures Replay.NoncesUnder(AcceptsOf(beats, n, ip, key, from), key) == NoncesOf(beats, n)
  {
    if n > 0 {
      AcceptedNonces(beats, n - 1, ip, key, from);
      OneMoreAccept(beats, n, ip, key, from);
      var last := Accept(beats[n - 1], ip, key, from + PACE * (n - 1));
      Replay.NoncesUnderOneMore(AcceptsOf(beats, n - 1, ip, key, from), last, key);
      assert NoncesOf(beats, n) == NoncesOf(beats, n - 1) + [beats[n - 1].nonce];
    }
  }

  predicate DifferentNonces(beats: seq<Beat>) {
    forall i, j | 0 <= i < j < |beats| :: beats[i].nonce != beats[j].nonce
  }

  lemma LastFewAreFrom(before: seq<Bytes>, after: seq<Bytes>, n: Bytes)
    requires n !in before && n !in after
    ensures n !in Replay.LastFew(before + after)
  {
  }

  /** The nonces under the key, when it has taken the first `n` since `w`. */
  lemma NoncesThen(w: World, beats: seq<Beat>, n: nat, ip: string, key: Bytes, from: int, accepts: seq<Accept>)
    requires n <= |beats| && accepts == w.accepts + AcceptsOf(beats, n, ip, key, from)
    ensures Replay.NoncesUnder(accepts, key) == Replay.NoncesUnder(w.accepts, key) + NoncesOf(beats, n)
  {
    AcceptedNonces(beats, n, ip, key, from);
    Replay.NoncesUnderSplit(w.accepts, AcceptsOf(beats, n, ip, key, from), key);
  }

  /** All heartbeats are for this session, in time all the while, with nonces it
      has not taken yet and that all differ. */
  predicate AllFitting(c: Suite, w: World, name: Fp, key: Bytes, beats: seq<Beat>, from: int, until: int) {
    && DifferentNonces(beats)
    && forall i | 0 <= i < |beats| ::
         Fitting(c, w, name, key, beats[i], from, until) && beats[i].nonce !in Replay.NoncesUnder(w.accepts, key)
  }

  /** The state when the first `n` of the heartbeats since `w` are accepted. */
  predicate HeardSoFar(g: Setting, w: World, name: Fp, key: Bytes, ip: string, beats: seq<Beat>, from: int, until: int,
                       n: nat, w': World)
    requires n <= |beats|
  {
    && Listening(g, w', name, key, ip, until) && w'.installs == w.installs
    && w'.now <= (if n == 0 then from else from + PACE * (n - 1))
    && w'.accepts == w.accepts + AcceptsOf(beats, n, ip, key, from)
    && Times(w'.limits.datagrams, ip) == Times(w.limits.datagrams, ip) + Paced(from, n)
  }

  /** After the first `n` of them the next one fits. */
  lemma NextFits(c: Suite, w: World, name: Fp, key: Bytes, ip: string, beats: seq<Beat>, from: int, until: int, n: nat,
                 w': World)
    requires n < |beats| && AllFitting(c, w, name, key, beats, from, until) && from + PACE * n <= until
    requires w'.installs == w.installs && w'.accepts == w.accepts + AcceptsOf(beats, n, ip, key, from)
    ensures Fitting(c, w', name, key, beats[n], from + PACE * n, until)
    ensures beats[n].nonce !in Replay.LastFew(Replay.NoncesUnder(w'.accepts, key))
  {
    assert Fitting(c, w, name, key, beats[n], from, until);
    NoncesThen(w, beats, n, ip, key, from, w'.accepts);
    LastFewAreFrom(Replay.NoncesUnder(w.accepts, key), NoncesOf(beats, n), beats[n].nonce);
  }

  /** From `from` on the limiter has forgotten all that came before. */
  predicate Fresher(w: World, ip: string, from: int) {
    var ts := Times(w.limits.datagrams, ip);
    forall i | 0 <= i < |ts| :: ts[i] < from - UDP_RATE_LIMIT_WINDOW
  }

  lemma OneMoreHeard(g: Setting, steps: seq<Step>, worlds: seq<World>, w: World, name: Fp, key: Bytes, ip: string,
                     beats: seq<Beat>, from: int, until: int, n: nat)
    returns (steps': seq<Step>, worlds': seq<World>)
    requires IsRun(g, steps, worlds) && n < |beats|
    requires HeardSoFar(g, w, name, key, ip, beats, from, until, n, Last(worlds))
    requires AllFitting(g.c, w, name, key, beats, from, until) && Fresher(w, ip, from) && from + PACE * n <= until
    ensures IsRun(g, steps', worlds') && HeardSoFar(g, w, name, key, ip, beats, from, until, n + 1, Last(worlds'))
  {
    NextFits(g.c, w, name, key, ip, beats, from, until, n, Last(worlds));
    PaceIsAllowed(Last(worlds).limits.datagrams, ip, Times(w.limits.datagrams, ip), from, n);
    var w' := Last(worlds);
    steps', worlds' := Heard(g, steps, worlds, key, ip, beats[n], from + PACE * n, until);
    HeardNext(g, w, name, key, ip, beats, from, until, n, w', Last(worlds'));
  }

  lemma HeardNext(g: Setting, w: World, name: Fp, key: Bytes, ip: string, beats: seq<Beat>, from: int, until: int,
                  n: nat, w': World, w'': World)
    requires n < |beats| && HeardSoFar(g, w, name, key, ip, beats, from, until, n, w')
    requires Listening(g, w'', name, key, ip, until) && w''.installs == w'.installs && w''.now == from + PACE * n
    requires w''.limits.datagrams == Record(w'.limits.datagrams, ip, from + PACE * n)
    requires w''.accepts == w'.accepts + [Accept(beats[n], ip, key, from + PACE * n)]
    ensures HeardSoFar(g, w, name, key, ip, beats, from, until, n + 1, w'')
  {
    OneMoreAccept(beats, n + 1, ip, key, from);
    OneMorePaced(from, n);
  }

  lemma {:induction false} AllHeard(g: Setting, steps: seq<Step>, worlds: seq<World>, name: Fp, key: Bytes, ip: string,
                                    beats: seq<Beat>, from: int, until: int, n: nat)
    returns (steps': seq<Step>, worlds': seq<World>)
    requires IsRun(g, steps, worlds) && Listening(g, Last(worlds), name, key, ip, until) && Last(worlds).now <= from
    requires AllFitting(g.c, Last(worlds), name, key, beats, from, until) && Fresher(Last(worlds), ip, from)
    requires n <= |beats| && from + PACE * n <= until
    ensures IsRun(g, steps', worlds')
    ensures HeardSoFar(g, Last(worlds), name, key, ip, beats, from, until, n, Last(worlds'))
  {
    if n == 0 {
      steps', worlds' := steps, worlds;
    } else {
      steps', worlds' := AllHeard(g, steps, worlds, name, key, ip, beats, from, until, n - 1);
      steps', worlds' := OneMoreHeard(g, steps', worlds', Last(worlds), name, key, ip, beats, from, until, n - 1);
    }
  }

  /** Nothing that was let through before counts any more after a second. */
  lemma FresherAfterASecond(g: Setting, steps: seq<Step>, worlds: seq<World>, ip: string, from: int)
    requires IsRun(g, steps, worlds) && Last(worlds).now + UDP_RATE_LIMIT_WINDOW < from
    ensures Fresher(Last(worlds), ip, from)
  {
    var w := Last(worlds);
    Rates.AlwaysWithinRate(g, steps, worlds, |steps|);
    assert Rates.Fits(Times(w.limits.datagrams, ip), w.now, UDP_RATE_LIMIT_WINDOW, UDP_RATE_LIMIT_PACKETS);
  }

  /** How long the replay takes. */
  const REPLAY_MS := PACE * (NONCE_HISTORY_LEN + 1)

  /** From any run that has got to a session which lives long enough: after one
      heartbeat and then `NONCE_HISTORY_LEN` others, one every six milliseconds
      and all of them let through by the limiter, the first is accepted again. */
  lemma ReplayIsAccepted(g: Setting, steps: seq<Step>, worlds: seq<World>, name: Fp, key: Bytes, ip: string,
                         beats: seq<Beat>, from: int)
    returns (steps': seq<Step>, worlds': seq<World>)
    requires IsRun(g, steps, worlds) && Last(worlds).now + UDP_RATE_LIMIT_WINDOW < from
    requires Listening(g, Last(worlds), name, key, ip, from + REPLAY_MS) && |beats| == NONCE_HISTORY_LEN + 1
    requires AllFitting(g.c, Last(worlds), name, key, beats, from, from + REPLAY_MS)
    ensures IsRun(g, steps', worlds')
    ensures Last(worlds').accepts == Last(worlds).accepts + AcceptsOf(beats, |beats|, ip, key, from)
                                     + [Accept(beats[0], ip, key, from + REPLAY_MS)]
  {
    FresherAfterASecond(g, steps, worlds, ip, from);
    steps', worlds' := AllHeard(g, steps, worlds, name, key, ip, beats, from, from + REPLAY_MS, |beats|);
    steps', worlds' := FirstHeardAgain(g, steps', worlds', Last(worlds), name, key, ip, beats, from);
  }

  lemma FirstHeardAgain(g: Setting, steps: seq<Step>, worlds: seq<World>, w: World, name: Fp, key: Bytes, ip: string,
                        beats: seq<Beat>, from: int)
    returns (steps': seq<Step>, worlds': seq<World>)
    requires IsRun(g, steps, worlds) && |beats| == NONCE_HISTORY_LEN + 1 && Fresher(w, ip, from)
    requires AllFitting(g.c, w, name, key, beats, from, from + REPLAY_MS)
    requires HeardSoFar(g, w, name, key, ip, beats, from, from + REPLAY_MS, |beats|, Last(worlds))
    ensures IsRun(g, steps', worlds')
    ensures Last(worlds').accepts == Last(worlds).accepts + [Accept(beats[0], ip, key, from + REPLAY_MS)]
  {
    var until := from + REPLAY_MS;
    FirstFitsAgain(g.c, w, name, key, ip, beats, from, until, Last(worlds));
    PaceIsAllowed(Last(worlds).limits.datagrams, ip, Times(w.limits.datagrams, ip), from, |beats|);
    steps', worlds' := Heard(g, steps, worlds, key, ip, beats[0], until, until);
  }

  lemma FirstFitsAgain(c: Suite, w: World, name: Fp, key: Bytes, ip: string, beats: seq<Beat>, from: int, until: int,
                       w': World)
    requires AllFitting(c, w, name, key, beats, from, until) && |beats| == NONCE_HISTORY_LEN + 1
    requires w'.installs == w.installs && w'.accepts == w.accepts + AcceptsOf(beats, |beats|, ip, key, from)
    ensures Fitting(c, w', name, key, beats[0], until, until)
    ensures beats[0].nonce !in Replay.LastFew(Replay.NoncesUnder(w'.accepts, key))
  {
    assert Fitting(c, w, name, key, beats[0], from, until);
    NoncesThen(w, beats, |beats|, ip, key, from, w'.accepts);
    FirstForgotten(Replay.NoncesUnder(w.accepts, key), beats);
  }

  lemma FirstForgotten(before: seq<Bytes>, beats: seq<Beat>)
    requires DifferentNonces(beats) && |beats| == NONCE_HISTORY_LEN + 1
    ensures beats[0].nonce !in Replay.LastFew(before + NoncesOf(beats, |beats|))
  {
    var all := NoncesOf(beats, |beats|);
    assert before + all == (before + [all[0]]) + all[1..];
    Replay.LastFewOfLonger(before + [all[0]], all[1..]);
  }

  // -------------------------------------------------------------------------
  // A first session, and the replay in full

  /** When the first of the heartbeats is sent. */
  const FIRST_BEAT := UDP_RATE_LIMIT_WINDOW + 1

  /** An honest client with a 32-byte identity whose name can stand in a
      heartbeat, two ephemeral keys that the exchange takes, and time enough
      before the first cleanup tick. */
  predicate Able(g: Setting, xPriv: Bytes, serverPriv: Bytes) {
    && |g.honest| == KEY_LEN && ValidName(g.c.fingerprint(g.honest))
    && g.c.exchange(serverPriv, g.c.publicOf(xPriv)).Some?
    && FIRST_BEAT + REPLAY_MS <= g.tickGap
  }

  function HonestName(g: Setting): Fp {
    g.c.fingerprint(g.honest)
  }

  function FirstChallenge(): Bytes {
    Label(0, CHALLENGE_LEN)
  }

  function FirstDraw(serverPriv: Bytes): Fresh {
    Fresh(FirstChallenge(), serverPriv)
  }

  /** Nothing has been accepted, and no time has passed. */
  predicate Quiet(w: World) {
    w.accepts == [] && w.now == 0 && w.lastTick == 0
  }

  function HonestHello(g: Setting, xPriv: Bytes, serverPriv: Bytes): Event {
    HelloMsg(Hello("", "", g.honest, "", Given(g.c.publicOf(xPriv)), None), FirstDraw(serverPriv), true, true)
  }

  function HonestHandshake(g: Setting, xPriv: Bytes, serverPriv: Bytes): Handshake {
    Handshake(xPriv, FirstChallenge(), g.c.publicOf(serverPriv))
  }

  function HonestResponse(g: Setting, xPriv: Bytes, serverPriv: Bytes): Event {
    ResponseMsg(HonestName(g), Some(Signature(g.honest, ClientBinding(g.c, HonestHandshake(g, xPriv, serverPriv)))))
  }

  function TrustingStart(g: Setting): World {
    Started(map[HonestName(g) := Trusted("", "", g.honest, 0, 0, "", 0, 1, 0, 0)])
  }

  lemma HelloStep(g: Setting, xPriv: Bytes, serverPriv: Bytes)
    requires g.c.Lawful() && Able(g, xPriv, serverPriv)
    ensures var e := HonestHello(g, xPriv, serverPriv);
            var w' := Next(g, TrustingStart(g), e, 0);
            && Enabled(g, TrustingStart(g), e, 0)
            && w'.auth.pending == map[HonestName(g) := NewRequest(e.hello, g.c.publicOf(xPriv), e.draw, 0)]
            && FirstChallenge() in w'.disclosed && w'.installs == [] && Quiet(w')
  {
  }

  lemma SignStep(g: Setting, w: World, xPriv: Bytes, serverPriv: Bytes)
    requires FirstChallenge() in w.disclosed && Quiet(w)
    ensures var e := HonestSigns(HonestHandshake(g, xPriv, serverPriv));
            var w' := Next(g, w, e, 0);
            && Enabled(g, w, e, 0)
            && w'.auth == w.auth && w'.installs == w.installs && Quiet(w')
            && HonestResponse(g, xPriv, serverPriv).signature.value in w'.signed
  {
    var message := ClientBinding(g.c, HonestHandshake(g, xPriv, serverPriv));
    assert message[..CHALLENGE_LEN] == FirstChallenge();
  }

  lemma ResponseStep(g: Setting, w: World, xPriv: Bytes, serverPriv: Bytes, hello: Hello)
    requires g.c.Lawful() && Able(g, xPriv, serverPriv) && hello.publicKey == g.honest
    requires w.auth.pending == map[HonestName(g) := NewRequest(hello, g.c.publicOf(xPriv), FirstDraw(serverPriv), 0)]
    requires w.installs == [] && Quiet(w)
    requires HonestResponse(g, xPriv, serverPriv).signature.value in w.signed
    ensures var e := HonestResponse(g, xPriv, serverPriv);
            var w' := Next(g, w, e, 0);
            var key := ClientKeyOf(g.c, HonestHandshake(g, xPriv, serverPriv));
            && Enabled(g, w, e, 0) && key.Some?
            && |w'.installs| == 1 && w'.installs[0].key == key.value && w'.accepts == []
            && w'.now == 0 && Listening(g, w', HonestName(g), key.value, "", FIRST_BEAT + REPLAY_MS)
  {
    var r := w.auth.pending[HonestName(g)];
    assert g.c.exchange(xPriv, g.c.publicOf(serverPriv)) == g.c.exchange(serverPriv, g.c.publicOf(xPriv));
    assert SessionKeyFor(g.c, r, HonestResponse(g, xPriv, serverPriv).signature)
           == ClientKeyOf(g.c, HonestHandshake(g, xPriv, serverPriv));
  }

  /** A trusted device's HELLO, signature and response, in a run: one session,
      under the key that the client derives. */
  lemma FirstSession(g: Setting, xPriv: Bytes, serverPriv: Bytes)
    returns (steps: seq<Step>, worlds: seq<World>, key: Bytes)
    requires g.c.Lawful() && Able(g, xPriv, serverPriv)
    ensures IsRun(g, steps, worlds) && |Last(worlds).installs| == 1 && Last(worlds).installs[0].key == key
    ensures Last(worlds).accepts == [] && Last(worlds).now == 0
    ensures Listening(g, Last(worlds), HonestName(g), key, "", FIRST_BEAT + REPLAY_MS)
    ensures ClientKeyOf(g.c, HonestHandshake(g, xPriv, serverPriv)) == Some(key)
  {
    steps, worlds := [], [TrustingStart(g)];
    HelloStep(g, xPriv, serverPriv);
    steps, worlds := Extended(g, steps, worlds, HonestHello(g, xPriv, serverPriv), 0);
    SignStep(g, Last(worlds), xPriv, serverPriv);
    steps, worlds := Extended(g, steps, worlds, HonestSigns(HonestHandshake(g, xPriv, serverPriv)), 0);
    ResponseStep(g, Last(worlds), xPriv, serverPriv, HonestHello(g, xPriv, serverPriv).hello);
    steps, worlds := Extended(g, steps, worlds, HonestResponse(g, xPriv, serverPriv), 0);
    key := ClientKeyOf(g.c, HonestHandshake(g, xPriv, serverPriv)).value;
  }

  // -------------------------------------------------------------------------
  // A grant, used

  /** The honest client's HELLO on a socket. */
  function SocketHello(g: Setting, xPriv: Bytes, serverPriv: Bytes): Event {
    HelloMsg(Hello("", "", g.honest, "", Given(g.c.publicOf(xPriv)), Some(0)), FirstDraw(serverPriv), true, true)
  }

  /** The request it opens. */
  function SocketRequest(g: Setting, xPriv: Bytes, serverPriv: Bytes): Request {
    Request("", "", g.honest, "", 0, FirstChallenge(), 60_000, serverPriv, g.c.publicOf(xPriv), false, Some(0))
  }

  /** Nobody is trusted, and nothing installed. */
  predicate Untrusting(w: World) {
    w.auth.trusted == map[] && w.auth.sessions == map[] && w.installs == [] && w.everTrusted == {}
  }

  lemma UnknownHello(g: Setting, xPriv: Bytes, serverPriv: Bytes)
    requires g.c.Lawful() && Able(g, xPriv, serverPriv)
    ensures var e := SocketHello(g, xPriv, serverPriv);
            var w' := Next(g, Started(map[]), e, 0);
            && Enabled(g, Started(map[]), e, 0) && Quiet(w') && Untrusting(w') && w'.grants == []
            && w'.auth.pending == map[HonestName(g) := SocketRequest(g, xPriv, serverPriv)]
  {
  }

  lemma AllowStep(g: Setting, w: World, xPriv: Bytes, serverPriv: Bytes)
    requires Quiet(w) && Untrusting(w) && w.grants == [] && 0 <= g.tickGap
    requires w.auth.pending == map[HonestName(g) := SocketRequest(g, xPriv, serverPriv)]
    ensures var e := AllowOnceCmd(HonestName(g));
            var w' := Next(g, w, e, 0);
            && Enabled(g, w, e, 0) && Quiet(w') && Untrusting(w') && w'.grants == [HonestName(g)]
            && w'.auth.pending == map[HonestName(g) := SocketRequest(g, xPriv, serverPriv).(allowOnce := true)]
            && FirstChallenge() in w'.disclosed
  {
  }

  lemma GrantedStep(g: Setting, w: World, xPriv: Bytes, serverPriv: Bytes)
    requires g.c.Lawful() && Able(g, xPriv, serverPriv) && Quiet(w) && w.installs == [] && w.auth.trusted == map[]
    requires w.auth.pending == map[HonestName(g) := SocketRequest(g, xPriv, serverPriv).(allowOnce := true)]
    requires HonestResponse(g, xPriv, serverPriv).signature.value in w.signed
    ensures var e := HonestResponse(g, xPriv, serverPriv);
            var w' := Next(g, w, e, 0);
            && Enabled(g, w, e, 0) && |w'.installs| == 1 && w'.installs[0].fp == HonestName(g)
            && w'.grants == w.grants && w'.everTrusted == w.everTrusted && w'.auth.pending == map[]
            && HonestName(g) in w'.auth.sessions && w'.auth.sessions[HonestName(g)].singleUse
  {
    assert g.c.exchange(xPriv, g.c.publicOf(serverPriv)) == g.c.exchange(serverPriv, g.c.publicOf(xPriv));
  }

  lemma OneOfEach(i: Install, fp: Fp)
    requires i.fp == fp
    ensures Grants.SessionsOf([i], fp) == 1 && Grants.GrantsOf([fp], fp) == 1
  {
    assert [i][..0] == [] && [fp][..0] == [];
  }

  lemma GrantedSignStep(g: Setting, w: World, xPriv: Bytes, serverPriv: Bytes)
    requires FirstChallenge() in w.disclosed && Quiet(w)
    ensures var e := HonestSigns(HonestHandshake(g, xPriv, serverPriv));
            var w' := Next(g, w, e, 0);
            w'.grants == w.grants && w'.everTrusted == w.everTrusted + w.auth.trusted.Keys
  {
  }

  /** The bound on sessions is met. In some run, from a start at which nobody is
      trusted, a device says HELLO, is allowed once, answers, and has a session for
      one use: as many as it was granted, and it was never trusted. */
  lemma GrantIsUsed(g: Setting, xPriv: Bytes, serverPriv: Bytes) returns (steps: seq<Step>, worlds: seq<World>)
    requires g.c.Lawful() && Able(g, xPriv, serverPriv)
    ensures IsRun(g, steps, worlds) && |steps| == 4
    ensures var w, fp := Last(worlds), HonestName(g);
            && fp !in w.everTrusted && fp in w.auth.sessions && w.auth.sessions[fp].singleUse
            && Grants.SessionsOf(w.installs, fp) == Grants.GrantsOf(w.grants, fp) == 1
  {
    steps, worlds := [], [Started(map[])];
    UnknownHello(g, xPriv, serverPriv);
    steps, worlds := Extended(g, steps, worlds, SocketHello(g, xPriv, serverPriv), 0);
    AllowStep(g, Last(worlds), xPriv, serverPriv);
    steps, worlds := Extended(g, steps, worlds, AllowOnceCmd(HonestName(g)), 0);
    SignStep(g, Last(worlds), xPriv, serverPriv);
    GrantedSignStep(g, Last(worlds), xPriv, serverPriv);
    steps, worlds := Extended(g, steps, worlds, HonestSigns(HonestHandshake(g, xPriv, serverPriv)), 0);
    GrantedStep(g, Last(worlds), xPriv, serverPriv);
    steps, worlds := Extended(g, steps, worlds, HonestResponse(g, xPriv, serverPriv), 0);
    OneOfEach(Last(worlds).installs[0], HonestName(g));
  }

  /** When the client sends its heartbeat number `n`. */
  function SentAt(n: nat): nat {
    FIRST_BEAT + PACE * n
  }

  /** Heartbeat number `n` of the client. */
  function BeatOf(g: Setting, key: Bytes, n: nat): (b: Beat)
    requires g.c.Lawful() && ValidName(HonestName(g)) && n <= NONCE_HISTORY_LEN
    ensures b.Valid() && b.name == HonestName(g) && b.nonce == Label(n, NONCE_LEN)
    ensures b.Millis() == SentAt(n) && TagVerifies(g.c, key, b)
  {
    ValidNameIsAscii(HonestName(g));
    Room(TIMESTAMP_LEN);
    UnpackPack(SentAt(n), TIMESTAMP_LEN);
    var name, at, nonce := HonestName(g), Pack(SentAt(n), TIMESTAMP_LEN), Label(n, NONCE_LEN);
    Beat(name, at, nonce, g.c.hmac(key, EncodeText(name) + at + nonce))
  }

  function BeatsOf(g: Setting, key: Bytes): (beats: seq<Beat>)
    requires g.c.Lawful() && ValidName(HonestName(g))
    ensures |beats| == NONCE_HISTORY_LEN + 1 && forall n | 0 <= n < |beats| :: beats[n] == BeatOf(g, key, n)
  {
    seq(NONCE_HISTORY_LEN + 1, n requires 0 <= n <= NONCE_HISTORY_LEN => BeatOf(g, key, n))
  }

  lemma BeatsDiffer(g: Setting, key: Bytes)
    requires g.c.Lawful() && ValidName(HonestName(g))
    ensures DifferentNonces(BeatsOf(g, key))
  {
    var beats := BeatsOf(g, key);
    forall i, j | 0 <= i < j < |beats|
      ensures beats[i].nonce != beats[j].nonce
    {
      if beats[i].nonce == beats[j].nonce {
        LabelsDiffer(i, j, NONCE_LEN);
        assert false;
      }
    }
  }

  lemma BeatsFit(g: Setting, w: World, key: Bytes)
    requires g.c.Lawful() && ValidName(HonestName(g))
    requires |w.installs| == 1 && w.accepts == []
    ensures AllFitting(g.c, w, HonestName(g), key, BeatsOf(g, key), FIRST_BEAT, FIRST_BEAT + REPLAY_MS)
  {
    BeatsDiffer(g, key);
    var beats := BeatsOf(g, key);
    forall n | 0 <= n < |beats|
      ensures Fitting(g.c, w, HonestName(g), key, beats[n], FIRST_BEAT, FIRST_BEAT + REPLAY_MS)
    {
      assert beats[n] == BeatOf(g, key, n);
    }
  }

  /** A whole run, from a server that has just started, in which the first
      heartbeat of the only session is accepted twice: a device says HELLO, signs
      and answers, sends 513 heartbeats, each with the time at which it is sent,
      and then the first of them arrives once more, three seconds after it did. */
  lemma HeartbeatAcceptedTwice(g: Setting, xPriv: Bytes, serverPriv: Bytes)
    returns (steps: seq<Step>, worlds: seq<World>)
    requires g.c.Lawful() && Able(g, xPriv, serverPriv)
    ensures IsRun(g, steps, worlds)
    ensures var accepts := Last(worlds).accepts;
            && |accepts| == NONCE_HISTORY_LEN + 2
            && accepts[0].beat == accepts[NONCE_HISTORY_LEN + 1].beat
            && accepts[0].at == FIRST_BEAT && accepts[NONCE_HISTORY_LEN + 1].at == FIRST_BEAT + REPLAY_MS
  {
    var key;
    steps, worlds, key := FirstSession(g, xPriv, serverPriv);
    BeatsFit(g, Last(worlds), key);
    steps, worlds := ReplayIsAccepted(g, steps, worlds, HonestName(g), key, "", BeatsOf(g, key), FIRST_BEAT);
  }

  lemma LettersAreAName(b: Bytes)
    requires |b| == KEY_LEN && forall i | 0 <= i < |b| :: b[i] == 97
    ensures ValidName(AsText(b))
  {
    var name := AsText(b);
    forall i | 0 <= i < |name|
      ensures name[i] == 'a'
    {
      assert name[i] as int == 'a' as int;
    }
    assert name[0] != ':';
  }

  /** There is such a client, and so there are such runs. */
  lemma SomeoneIsAble() returns (g: Setting, xPriv: Bytes, serverPriv: Bytes)
    ensures g.c.Lawful() && Able(g, xPriv, serverPriv)
  {
    var honest: Bytes := seq(KEY_LEN, _ => 97);
    xPriv, serverPriv := Zeros(1), Zeros(2);
    g := Setting(Toy(), Zeros(KEY_LEN), honest, CLIENT_TIMEOUT);
    LettersAreAName(honest);
    ToyIsLawful();
    assert |Toy().publicOf(xPriv)| == KEY_LEN;
  }

  // -------------------------------------------------------------------------
  // A client that gives up on its session

  /** What the server says on a device's socket, as the client reads it. */
  function PendingMessage(): ClientAuth.Message {
    ClientAuth.Message(false, ClientAuth.Status.Pending, None, None, None)
  }

  function PongMessage(): ClientAuth.Message {
    ClientAuth.Message(true, ClientAuth.Other, None, None, None)
  }

  /** A waiting device on its socket, as its HELLO left it. */
  predicate WaitsOn(c: Suite, a: Auth, s: Gateway.Socket, me: Bytes, xPriv: Bytes, later: int) {
    var fp := c.fingerprint(me);
    && |me| == KEY_LEN && s.waiting == Some(fp) && fp in a.pending
    && a.pending[fp].publicKey == me && a.pending[fp].clientX == c.publicOf(xPriv) && a.pending[fp].ws == Some(s.id)
    && !a.pending[fp].allowOnce && later <= a.pending[fp].expires
    && c.exchange(a.pending[fp].serverPriv, c.publicOf(xPriv)).Some?
  }

  /** That is what a HELLO that is answered `pending` leads to. */
  lemma HelloWaits(c: Suite, serverKey: Bytes, a: Auth, s: Gateway.Socket, deviceId: string, deviceName: string,
                   me: Bytes, xPriv: Bytes, draw: Fresh, now: int, later: int, v: AuthServer.Verdicts)
    requires |me| == 32 && c.exchange(draw.serverPriv, c.publicOf(xPriv)).Some? && later <= now + 60_000
    requires var hello := Gateway.HelloMessage(deviceId, deviceName, Some(me), Given(c.publicOf(xPriv)));
             Gateway.Dispatch(c, serverKey, a, s, hello, draw, now, v).2 == Gateway.Replied(IsPending)
    ensures var hello := Gateway.HelloMessage(deviceId, deviceName, Some(me), Given(c.publicOf(xPriv)));
            var (a', s', answer) := Gateway.Dispatch(c, serverKey, a, s, hello, draw, now, v);
            WaitsOn(c, a', s', me, xPriv, later)
  {
    var hello := Gateway.HelloMessage(deviceId, deviceName, Some(me), Given(c.publicOf(xPriv)));
    Gateway.HelloIsFiled(c, serverKey, a, s, hello, draw, now, v);
  }

  function LetIn(a: Auth, fp: Fp, once: bool, now: int): Auth {
    if once then AllowOnce(a, fp) else Approve(a, fp, now)
  }

  /** The device is let in, the offer goes out, and then its PING is read. */
  lemma PingedAfterOffer(c: Suite, serverKey: Bytes, a: Auth, s: Gateway.Socket, me: Bytes, xPriv: Bytes, once: bool,
                         now: int)
    requires c.Lawful() && WaitsOn(c, a, s, me, xPriv, now)
    ensures var fp, admitted := c.fingerprint(me), LetIn(a, c.fingerprint(me), once, now);
            var pinged := Ping(admitted, fp, now);
            && fp in pinged.pending && pinged.pending[fp].publicKey == me
            && pinged.pending[fp].clientX == c.publicOf(xPriv) && pinged.pending[fp].allowOnce == once
            && pinged.pending[fp].expires == now + CHALLENGE_TTL
            && c.exchange(pinged.pending[fp].serverPriv, pinged.pending[fp].clientX).Some?
            && Push(c, serverKey, admitted, fp, now) == Some(OfferOf(c, serverKey, pinged.pending[fp]))
  {
  }

  /** What comes of the answer that the client gives before it reads the PONG. */
  lemma AnsweredBeforePong(c: Suite, serverKey: Bytes, a: Auth, s: Gateway.Socket, me: Bytes, xPriv: Bytes, draw: Fresh,
                           v: AuthServer.Verdicts, later: int, serverName: string, trusts: string -> bool,
                           serverTimeMs: int)
    requires c.Lawful() && trusts(serverName) && c.fingerprint(me) in a.pending && |me| == KEY_LEN
    requires var r := a.pending[c.fingerprint(me)];
             && r.publicKey == me && r.clientX == c.publicOf(xPriv) && later <= r.expires
             && c.exchange(r.serverPriv, r.clientX).Some?
    ensures var fp := c.fingerprint(me);
            var offer := ClientAuth.OfferMessage(OfferOf(c, serverKey, a.pending[fp]), serverKey, serverName);
            var incoming := [PendingMessage(), offer, PongMessage(), ClientAuth.WelcomeMessage(serverTimeMs)];
            var (outcome, signed) := ClientAuth.Authentication(c, me, xPriv, incoming, trusts);
            var response := Gateway.ResponseMessage(Some(fp), signed);
            var (after, s', answer) := Gateway.Dispatch(c, serverKey, a, s, response, draw, later, v);
            && outcome == ClientAuth.Failed(ClientAuth.NotAccepted)
            && answer == Gateway.Replied(Authenticated) && fp in after.sessions && fp !in after.pending
            && (fp in Gateway.Hangup(after, s').sessions <==> !a.pending[fp].allowOnce)
  {
    var fp := c.fingerprint(me);
    var offer := ClientAuth.OfferMessage(OfferOf(c, serverKey, a.pending[fp]), serverKey, serverName);
    var rest := [PongMessage(), ClientAuth.WelcomeMessage(serverTimeMs)];
    ClientAuth.OfferAnswered(c, serverKey, a, fp, xPriv, [PendingMessage()], rest, serverName, trusts, later);
    assert [PendingMessage()] + [offer] + rest == [PendingMessage(), offer, rest[0], rest[1]];
  }

  /** While it waits the client sends a PING every ten seconds. If one is still
      on its way when the operator lets the device in, the server answers it after
      the offer. The client signs the offer and takes the PONG for the answer to
      its signature: it gives up, although the server installs its session and
      says so next. The client then hangs up, and with that the session of a
      device that was allowed once is gone, and its grant with it. */
  lemma LatePongLosesSession(c: Suite, serverKey: Bytes, a: Auth, s: Gateway.Socket, me: Bytes, xPriv: Bytes,
                             once: bool, draw: Fresh, v: AuthServer.Verdicts, now: int, later: int, serverName: string,
                             trusts: string -> bool, serverTimeMs: int)
    requires c.Lawful() && WaitsOn(c, a, s, me, xPriv, now) && trusts(serverName) && now <= later <= now + CHALLENGE_TTL
    ensures var fp := c.fingerprint(me);
            var admitted := LetIn(a, fp, once, now);
            var pushed := Push(c, serverKey, admitted, fp, now);
            && pushed.Some?
            && var (pinged, s', pong) := Gateway.Dispatch(c, serverKey, admitted, s, Gateway.PingMessage, draw, now, v);
               var offer := ClientAuth.OfferMessage(pushed.value, serverKey, serverName);
               var incoming := [PendingMessage(), offer, PongMessage(), ClientAuth.WelcomeMessage(serverTimeMs)];
               var (outcome, signed) := ClientAuth.Authentication(c, me, xPriv, incoming, trusts);
               var response := Gateway.ResponseMessage(Some(fp), signed);
               var (after, s'', answer) := Gateway.Dispatch(c, serverKey, pinged, s', response, draw, later, v);
               && pong == Gateway.Pong && outcome == ClientAuth.Failed(ClientAuth.NotAccepted)
               && answer == Gateway.Replied(Authenticated) && fp in after.sessions && fp !in after.pending
               && (fp in Gateway.Hangup(after, s'').sessions <==> !once)
  {
    var fp := c.fingerprint(me);
    var pinged := Ping(LetIn(a, fp, once, now), fp, now);
    PingedAfterOffer(c, serverKey, a, s, me, xPriv, once, now);
    AnsweredBeforePong(c, serverKey, pinged, s, me, xPriv, draw, v, later, serverName, trusts, serverTimeMs);
  }
}
