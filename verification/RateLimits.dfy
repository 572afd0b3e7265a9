/** The two sliding-window rate limiters. Each is proved against the plain
    meaning of such a limiter: the times at which an address was let through. */
module RateLimits {

  /** For each address, the times of all the requests ever let through. */
  type History = map<string, seq<int>>

  function Times(h: History, ip: string): seq<int> {
    if ip in h then h[ip] else []
  }

  /** How many of the times are at or after the cutoff. */
  function CountSince(ts: seq<int>, cutoff: int): nat {
    if ts == [] then 0
    else CountSince(ts[..|ts| - 1], cutoff) + if ts[|ts| - 1] >= cutoff then 1 else 0
  }

  /** How many of the times lie in a closed interval. */
  function CountIn(ts: seq<int>, from: int, to: int): nat {
    if ts == [] then 0
    else CountIn(ts[..|ts| - 1], from, to) + if from <= ts[|ts| - 1] <= to then 1 else 0
  }

  /** The rule: fewer than `max` earlier requests within the window. */
  predicate WouldAllow(h: History, ip: string, now: int, window: int, max: nat) {
    CountSince(Times(h, ip), now - window) < max
  }

  function Record(h: History, ip: string, now: int): History {
    h[ip := Times(h, ip) + [now]]
  }

  predicate Sorted(ts: seq<int>) {
    forall i, j | 0 <= i < j < |ts| :: ts[i] <= ts[j]
  }

  /** Any `max + 1` requests in a row take longer than the window. */
  predicate Spaced(ts: seq<int>, window: int, max: nat) {
    forall i, j | 0 <= i < |ts| && 0 <= j < |ts| && i + max <= j :: ts[i] + window < ts[j]
  }

  lemma {:induction false} CountOfSuffix(ts: seq<int>, k: nat, cutoff: int)
    requires k <= |ts|
    requires forall i | 0 <= i < k :: ts[i] < cutoff
    requires forall i | k <= i < |ts| :: cutoff <= ts[i]
    ensures CountSince(ts, cutoff) == |ts| - k
  {
    if |ts| > 0 {
      var init := ts[..|ts| - 1];
      CountOfSuffix(init, if k == |ts| then k - 1 else k, cutoff);
    }
  }

  lemma {:induction false} FewSince(ts: seq<int>, max: nat, cutoff: int)
    requires Sorted(ts) && CountSince(ts, cutoff) < max <= |ts|
    ensures ts[|ts| - max] < cutoff
  {
    if ts[|ts| - max] >= cutoff {
      ManySince(ts, max, cutoff);
    }
  }

  lemma {:induction false} ManySince(ts: seq<int>, n: nat, cutoff: int)
    requires n <= |ts| && forall i | |ts| - n <= i < |ts| :: cutoff <= ts[i]
    ensures CountSince(ts, cutoff) >= n
  {
    if n > 0 {
      ManySince(ts[..|ts| - 1], n - 1, cutoff);
    }
  }

  lemma RecordKeepsSpaced(ts: seq<int>, now: int, window: int, max: nat)
    requires Sorted(ts) && Spaced(ts, window, max) && CountSince(ts, now - window) < max
    requires forall i | 0 <= i < |ts| :: ts[i] <= now
    ensures Sorted(ts + [now]) && Spaced(ts + [now], window, max)
  {
    if max <= |ts| {
      FewSince(ts, max, now - window);
    }
  }

  /** So no interval as long as the window holds more than `max` of them. */
  lemma {:induction false} AtMostMaxInAnyWindow(ts: seq<int>, from: int, window: int, max: nat)
    requires Sorted(ts) && Spaced(ts, window, max)
    ensures CountIn(ts, from, from + window) <= max
  {
    if |ts| > 0 {
      var n := |ts| - 1;
      AtMostMaxInAnyWindow(ts[..n], from, window, max);
      if from <= ts[n] <= from + window {
        if max <= n {
          assert ts[n - max] + window < ts[n];
          CountInAfter(ts[..n], from, from + window, n - max + 1);
        } else {
          CountInAfter(ts[..n], from, from + window, 0);
        }
      }
    }
  }

  /** Only times from index `k` on can lie in the interval. */
  lemma {:induction false} CountInAfter(ts: seq<int>, from: int, to: int, k: nat)
    requires k <= |ts| && forall i | 0 <= i < k :: ts[i] < from
    ensures CountIn(ts, from, to) <= |ts| - k
  {
    if |ts| > 0 {
      CountInAfter(ts[..|ts| - 1], from, to, if k == |ts| then k - 1 else k);
    }
  }

  // -------------------------------------------------------------------------
  // The buckets

  function Bucket(buckets: map<string, seq<int>>, ip: string): seq<int> {
    if ip in buckets then buckets[ip] else []
  }

  /** The bucket is what is left of the times after some that are older than
      `horizon` were dropped from the front. */
  predicate Remembers(bucket: seq<int>, ts: seq<int>, horizon: int) {
    && |bucket| <= |ts| && bucket == ts[|ts| - |bucket|..]
    && forall i | 0 <= i < |ts| - |bucket| :: ts[i] < horizon
  }

  predicate Sound(bucket: seq<int>, ts: seq<int>, clock: int, window: int, max: nat) {
    && Sorted(ts) && Spaced(ts, window, max)
    && (forall i | 0 <= i < |ts| :: ts[i] <= clock)
    && Remembers(bucket, ts, clock - window)
  }

  ghost predicate Consistent(buckets: map<string, seq<int>>, h: History, clock: int, window: int, max: nat) {
    forall ip: string {:trigger Sound(Bucket(buckets, ip), Times(h, ip), clock, window, max)} ::
      Sound(Bucket(buckets, ip), Times(h, ip), clock, window, max)
  }

  /** What either limiter has let through, in any interval as long as its
      window, is at most its maximum. */
  lemma RateIsBounded(buckets: map<string, seq<int>>, h: History, clock: int, window: int, max: nat, ip: string,
                      from: int)
    requires Consistent(buckets, h, clock, window, max)
    ensures CountIn(Times(h, ip), from, from + window) <= max
  {
    assert Sound(Bucket(buckets, ip), Times(h, ip), clock, window, max);
    AtMostMaxInAnyWindow(Times(h, ip), from, window, max);
  }

  lemma ClockAdvances(buckets: map<string, seq<int>>, h: History, clock: int, now: int, window: int, max: nat)
    requires Consistent(buckets, h, clock, window, max) && clock <= now
    ensures Consistent(buckets, h, now, window, max)
  {
    forall ip: string
      ensures Sound(Bucket(buckets, ip), Times(h, ip), now, window, max)
    {
      assert Sound(Bucket(buckets, ip), Times(h, ip), clock, window, max);
    }
  }

  /** One address's bucket and times may be replaced by others that agree. */
  lemma Replaced(buckets: map<string, seq<int>>, h: History, h': History, ip: string, bucket: seq<int>,
                 clock: int, window: int, max: nat)
    requires Consistent(buckets, h, clock, window, max) && Sound(bucket, Times(h', ip), clock, window, max)
    requires forall k: string | k != ip :: Times(h', k) == Times(h, k)
    ensures Consistent(buckets[ip := bucket], h', clock, window, max)
    ensures bucket == [] ==> Consistent(buckets - {ip}, h', clock, window, max)
  {
    forall k: string
      ensures Sound(Bucket(buckets[ip := bucket], k), Times(h', k), clock, window, max)
      ensures bucket == [] ==> Sound(Bucket(buckets - {ip}, k), Times(h', k), clock, window, max)
    {
      assert Sound(Bucket(buckets, k), Times(h, k), clock, window, max);
    }
  }

  /** Once everything older than the cutoff is gone, the length decides. */
  lemma LengthDecides(bucket: seq<int>, ts: seq<int>, cutoff: int)
    requires Sorted(ts) && Remembers(bucket, ts, cutoff) && (bucket == [] || bucket[0] >= cutoff)
    ensures |bucket| == CountSince(ts, cutoff)
  {
    CountOfSuffix(ts, |ts| - |bucket|, cutoff);
  }

  predicate Dead(buckets: map<string, seq<int>>, ip: string, limit: int) {
    var q := Bucket(buckets, ip);
    q == [] || q[|q| - 1] < limit
  }

  function Live(buckets: map<string, seq<int>>, limit: int): map<string, seq<int>> {
    map ip | ip in buckets && !Dead(buckets, ip, limit) :: buckets[ip]
  }

  /** Delete the buckets that hold nothing, or nothing newer than the limit. */
  method DropDead(buckets: map<string, seq<int>>, limit: int) returns (kept: map<string, seq<int>>)
    ensures kept == Live(buckets, limit)
  {
    kept := buckets;
    var dead := set ip | ip in buckets && Dead(buckets, ip, limit);
    while dead != {}
      invariant dead <= kept.Keys <= buckets.Keys
      invariant forall ip | ip in kept :: kept[ip] == buckets[ip]
      invariant forall ip | ip in dead :: Dead(buckets, ip, limit)
      invariant forall ip | ip in buckets && ip !in kept :: Dead(buckets, ip, limit)
      invariant forall ip | ip in kept && Dead(buckets, ip, limit) :: ip in dead
      decreases dead
    {
      var ip :| ip in dead;
      kept := kept - {ip};
      dead := dead - {ip};
    }
  }

  lemma DeadIsForgotten(bucket: seq<int>, ts: seq<int>, clock: int, window: int, max: nat)
    requires Sound(bucket, ts, clock, window, max) && (bucket == [] || bucket[|bucket| - 1] < clock - window)
    ensures Sound([], ts, clock, window, max)
  {
  }

  /** Buckets with nothing in the window may go. */
  lemma MayForget(buckets: map<string, seq<int>>, h: History, limit: int, clock: int, window: int, max: nat)
    requires Consistent(buckets, h, clock, window, max) && limit <= clock - window
    ensures Consistent(Live(buckets, limit), h, clock, window, max)
  {
    forall ip: string
      ensures Sound(Bucket(Live(buckets, limit), ip), Times(h, ip), clock, window, max)
    {
      assert Sound(Bucket(buckets, ip), Times(h, ip), clock, window, max);
      if Dead(buckets, ip, limit) {
        DeadIsForgotten(Bucket(buckets, ip), Times(h, ip), clock, window, max);
      }
    }
  }

  /** `popleft` as long as the oldest time is before the cutoff. */
  method PopOld(bucket: seq<int>, ghost ts: seq<int>, now: int, window: int, ghost max: nat) returns (rest: seq<int>)
    requires Sound(bucket, ts, now, window, max)
    ensures Sound(rest, ts, now, window, max) && (rest == [] || rest[0] >= now - window)
  {
    rest := bucket;
    while rest != [] && rest[0] < now - window
      invariant Sound(rest, ts, now, window, max)
      decreases |rest|
    {
      rest := rest[1..];
    }
  }

  /** The bucket after `popleft` of all that is too old, and perhaps `append`. */
  lemma Decided(bucket: seq<int>, ts: seq<int>, now: int, window: int, max: nat)
    requires Sound(bucket, ts, now, window, max) && (bucket == [] || bucket[0] >= now - window)
    ensures |bucket| == CountSince(ts, now - window)
    ensures |bucket| < max ==> Sound(bucket + [now], ts + [now], now, window, max)
  {
    LengthDecides(bucket, ts, now - window);
    if |bucket| < max {
      RecordKeepsSpaced(ts, now, window, max);
    }
  }

  /** One decision, and the buckets after it. */
  lemma DecisionIsSound(buckets: map<string, seq<int>>, h: History, ip: string, rest: seq<int>,
                        now: int, window: int, max: nat)
    requires Consistent(buckets, h, now, window, max)
    requires Sound(rest, Times(h, ip), now, window, max) && (rest == [] || rest[0] >= now - window)
    ensures |rest| < max <==> WouldAllow(h, ip, now, window, max)
    ensures |rest| < max ==> Consistent(buckets[ip := rest + [now]], Record(h, ip, now), now, window, max)
    ensures |rest| >= max ==> Consistent(buckets[ip := rest], h, now, window, max)
  {
    Decided(rest, Times(h, ip), now, window, max);
    if |rest| < max {
      Replaced(buckets, h, Record(h, ip, now), ip, rest + [now], now, window, max);
    } else {
      Replaced(buckets, h, h, ip, rest, now, window, max);
    }
  }

  function Recorded(h: History, ip: string, now: int, ok: bool): History {
    if ok then Record(h, ip, now) else h
  }

  /** The common core of both limiters: pop what is too old, decide, append. */
  method Decide(buckets: map<string, seq<int>>, ip: string, now: int, window: int, max: nat, ghost h: History)
    returns (ok: bool, next: map<string, seq<int>>)
    requires Consistent(buckets, h, now, window, max)
    ensures ok == WouldAllow(h, ip, now, window, max)
    ensures Consistent(next, Recorded(h, ip, now, ok), now, window, max)
  {
    assert Sound(Bucket(buckets, ip), Times(h, ip), now, window, max);
    var bucket := PopOld(Bucket(buckets, ip), Times(h, ip), now, window, max);
    DecisionIsSound(buckets, h, ip, bucket, now, window, max);
    ok := |bucket| < max;
    if ok {
      bucket := bucket + [now];
    }
    next := buckets[ip := bucket];
  }

  /** The limiter of the authentication service. */
  class RateLimiter {
    const window: int
    const max: nat
    var buckets: map<string, seq<int>>
    ghost var history: History
    ghost var clock: int

    ghost predicate Valid()
      reads this
    {
      Consistent(buckets, history, clock, window, max)
    }

    constructor (window: int, max: nat, ghost now: int)
      ensures Valid() && history == map[] && clock == now && this.window == window && this.max == max
    {
      this.window := window;
      this.max := max;
      buckets := map[];
      history := map[];
      clock := now;
    }

    /** A request is let through exactly by the rule, and only then recorded. */
    method Allow(ip: string, now: int) returns (ok: bool)
      requires Valid() && clock <= now
      modifies this
      ensures Valid() && clock == now
      ensures ok == WouldAllow(old(history), ip, now, window, max)
      ensures history == Recorded(old(history), ip, now, ok)
    {
      ClockAdvances(buckets, history, clock, now, window, max);
      clock := now;
      ok, buckets := Decide(buckets, ip, now, window, max, history);
      history := Recorded(history, ip, now, ok);
    }

    /** Pruning forgets buckets but no decision: the history, on which every
        later decision rests, is as before. */
    method Prune(now: int)
      requires Valid() && clock <= now
      modifies this
      ensures Valid() && clock == now && history == old(history)
    {
      ClockAdvances(buckets, history, clock, now, window, max);
      clock := now;
      MayForget(buckets, history, now - window, now, window, max);
      buckets := DropDead(buckets, now - window);
    }
  }

  const PRUNE_EVERY_MS := 60_000

  /** The limiter in front of the UDP socket: it prunes by itself, now and then,
      and only what is two windows old. */
  class UdpRateLimiter {
    const window: nat
    const max: nat
    var buckets: map<string, seq<int>>
    var lastPrune: int
    ghost var history: History
    ghost var clock: int

    ghost predicate Valid()
      reads this
    {
      Consistent(buckets, history, clock, window, max)
    }

    constructor (window: nat, max: nat, now: int)
      ensures Valid() && history == map[] && clock == now && this.window == window && this.max == max
    {
      this.window := window;
      this.max := max;
      buckets := map[];
      lastPrune := now;
      history := map[];
      clock := now;
    }

    method Allow(ip: string, now: int) returns (ok: bool)
      requires Valid() && clock <= now
      modifies this
      ensures Valid() && clock == now
      ensures ok == WouldAllow(old(history), ip, now, window, max)
      ensures history == Recorded(old(history), ip, now, ok)
    {
      ClockAdvances(buckets, history, clock, now, window, max);
      clock := now;
      ok, buckets := Decide(buckets, ip, now, window, max, history);
      history := Recorded(history, ip, now, ok);
      if ok && now - lastPrune > PRUNE_EVERY_MS {
        MayForget(buckets, history, now - window * 2, now, window, max);
        buckets := DropDead(buckets, now - window * 2);
        lastPrune := now;
      }
    }
  }
}
