/** The rate limits over whole runs, and what the one on datagrams means for
    heartbeats that are sent again. */
module Rates {
  import opened Wrappers
  import opened Wire
  import opened Crypto
  import opened AuthModel
  import opened StreamModel
  import opened RateLimits
  import opened Server
  import Grants
  import Replay

  // -------------------------------------------------------------------------
  // What was let through

  /** In order, far enough apart, and not in the future. */
  predicate Fits(ts: seq<int>, now: int, window: int, max: nat) {
    Sorted(ts) && Spaced(ts, window, max) && forall i | 0 <= i < |ts| :: ts[i] <= now
  }

  ghost predicate WithinRate(h: History, now: int, window: int, max: nat) {
    forall ip: string {:trigger Fits(Times(h, ip), now, window, max)} :: Fits(Times(h, ip), now, window, max)
  }

  lemma RecordedWithinRate(h: History, ip: string, ok: bool, now: int, at: int, window: int, max: nat)
    requires WithinRate(h, now, window, max) && now <= at && (ok ==> WouldAllow(h, ip, at, window, max))
    ensures WithinRate(Recorded(h, ip, at, ok), at, window, max)
  {
    forall other: string
      ensures Fits(Times(Recorded(h, ip, at, ok), other), at, window, max)
    {
      assert Fits(Times(h, other), now, window, max);
      if ok && other == ip {
        RecordKeepsSpaced(Times(h, ip), at, window, max);
      }
    }
  }

  lemma LaterWithinRate(h: History, now: int, at: int, window: int, max: nat)
    requires WithinRate(h, now, window, max) && now <= at
    ensures WithinRate(h, at, window, max)
  {
    RecordedWithinRate(h, "", false, now, at, window, max);
  }

  ghost predicate AllWithinRate(l: Limits, now: int) {
    && WithinRate(l.hellos, now, RATE_LIMIT_WINDOW, RATE_LIMIT_MAX)
    && WithinRate(l.names, now, PENDING_FP_WINDOW, PENDING_FP_MAX)
    && WithinRate(l.datagrams, now, UDP_RATE_LIMIT_WINDOW, UDP_RATE_LIMIT_PACKETS)
  }

  lemma LimitsStay(g: Setting, w: World, e: Event, at: int)
    requires w.now <= at && VerdictsRight(w.limits, e, at) && AllWithinRate(w.limits, w.now)
    ensures AllWithinRate(LimitsAfter(g, w, e, at), at)
  {
    LaterWithinRate(w.limits.hellos, w.now, at, RATE_LIMIT_WINDOW, RATE_LIMIT_MAX);
    LaterWithinRate(w.limits.names, w.now, at, PENDING_FP_WINDOW, PENDING_FP_MAX);
    LaterWithinRate(w.limits.datagrams, w.now, at, UDP_RATE_LIMIT_WINDOW, UDP_RATE_LIMIT_PACKETS);
    match e
    case HelloMsg(h, _, allowed, fpAllowed) =>
      var asked := AsksForPlace(g, w, h, allowed) && fpAllowed;
      RecordedWithinRate(w.limits.hellos, h.ip, allowed, w.now, at, RATE_LIMIT_WINDOW, RATE_LIMIT_MAX);
      RecordedWithinRate(w.limits.names, h.ip, asked, w.now, at, PENDING_FP_WINDOW, PENDING_FP_MAX);
    case Datagram(_, ip, _, ok) =>
      RecordedWithinRate(w.limits.datagrams, ip, ok, w.now, at, UDP_RATE_LIMIT_WINDOW, UDP_RATE_LIMIT_PACKETS);
    case _ =>
  }

  lemma RateNext(g: Setting, steps: seq<Step>, worlds: seq<World>, k: nat)
    requires IsRun(g, steps, worlds) && 0 < k < |worlds| && AllWithinRate(worlds[k - 1].limits, worlds[k - 1].now)
    ensures AllWithinRate(worlds[k].limits, worlds[k].now)
  {
    StepInto(g, steps, worlds, k);
    LimitsStay(g, worlds[k - 1], steps[k - 1].event, steps[k - 1].at);
  }

  lemma {:induction false} AlwaysWithinRate(g: Setting, steps: seq<Step>, worlds: seq<World>, k: nat)
    requires IsRun(g, steps, worlds) && k < |worlds|
    ensures AllWithinRate(worlds[k].limits, worlds[k].now)
  {
    if k > 0 {
      AlwaysWithinRate(g, steps, worlds, k - 1);
      RateNext(g, steps, worlds, k);
    }
  }

  // -------------------------------------------------------------------------
  // Counted over the steps

  /** The steps before `k` in which a HELLO from this address was let through, at a
      time in this closed interval. */
  function HellosIn(steps: seq<Step>, k: nat, ip: string, from: int, to: int): set<int>
    requires k <= |steps|
  {
    set i | 0 <= i < k && steps[i].event.HelloMsg? && steps[i].event.hello.ip == ip && steps[i].event.allowed
            && from <= steps[i].at <= to
  }

  /** ... in which a new name was: one of neither a trusted nor a blocked device. */
  function NamesIn(g: Setting, steps: seq<Step>, worlds: seq<World>, k: nat, ip: string, from: int, to: int): set<int>
    requires k <= |steps| && k <= |worlds|
  {
    set i | 0 <= i < k && steps[i].event.HelloMsg? && steps[i].event.hello.ip == ip && steps[i].event.allowed
            && steps[i].event.hello.clientKey.Given? && steps[i].event.fpAllowed
            && g.c.fingerprint(steps[i].event.hello.publicKey) !in worlds[i].auth.trusted
            && g.c.fingerprint(steps[i].event.hello.publicKey) !in worlds[i].auth.blocked
            && from <= steps[i].at <= to
  }

  /** ... in which a datagram was. */
  function DatagramsIn(steps: seq<Step>, k: nat, ip: string, from: int, to: int): set<int>
    requires k <= |steps|
  {
    set i | 0 <= i < k && steps[i].event.Datagram? && steps[i].event.ip == ip && steps[i].event.udpAllowed
            && from <= steps[i].at <= to
  }

  lemma CountInOneMore(ts: seq<int>, t: int, from: int, to: int)
    ensures CountIn(ts + [t], from, to) == CountIn(ts, from, to) + if from <= t <= to then 1 else 0
  {
    assert (ts + [t])[..|ts|] == ts;
  }

  lemma {:induction false} SinceIsIn(ts: seq<int>, from: int, to: int)
    requires forall i | 0 <= i < |ts| :: ts[i] <= to
    ensures CountSince(ts, from) == CountIn(ts, from, to)
  {
    if ts != [] {
      SinceIsIn(ts[..|ts| - 1], from, to);
    }
  }

  /** What a step adds to what a limiter has let through. */
  predicate Adds(ts: seq<int>, ts': seq<int>, ok: bool, at: int) {
    ts' == if ok then ts + [at] else ts
  }

  /** The same step, counted. */
  lemma OneMoreIn(steps: set<int>, steps': set<int>, k: nat, ts: seq<int>, ts': seq<int>, ok: bool, at: int,
                  from: int, to: int)
    requires |steps| == CountIn(ts, from, to) && k !in steps && Adds(ts, ts', ok, at)
    requires steps' == if ok && from <= at <= to then steps + {k} else steps
    ensures |steps'| == CountIn(ts', from, to)
  {
    CountInOneMore(ts, at, from, to);
  }

  /** The histories of the limiters are just what was let through. */
  predicate Histories(g: Setting, steps: seq<Step>, worlds: seq<World>, k: nat, ip: string, from: int, to: int)
    requires |worlds| == |steps| + 1 && k <= |steps|
  {
    && |HellosIn(steps, k, ip, from, to)| == CountIn(Times(worlds[k].limits.hellos, ip), from, to)
    && |NamesIn(g, steps, worlds, k, ip, from, to)| == CountIn(Times(worlds[k].limits.names, ip), from, to)
    && |DatagramsIn(steps, k, ip, from, to)| == CountIn(Times(worlds[k].limits.datagrams, ip), from, to)
  }

  predicate HelloFrom(e: Event, ip: string) {
    e.HelloMsg? && e.hello.ip == ip && e.allowed
  }

  predicate NewName(g: Setting, w: World, e: Event) {
    && e.HelloMsg? && e.hello.clientKey.Given? && e.fpAllowed
    && g.c.fingerprint(e.hello.publicKey) !in w.auth.trusted && g.c.fingerprint(e.hello.publicKey) !in w.auth.blocked
  }

  predicate DatagramFrom(e: Event, ip: string) {
    e.Datagram? && e.ip == ip && e.udpAllowed
  }

  lemma LimitsAdd(g: Setting, w: World, e: Event, at: int, ip: string)
    ensures var l, l' := w.limits, LimitsAfter(g, w, e, at);
            && Adds(Times(l.hellos, ip), Times(l'.hellos, ip), HelloFrom(e, ip), at)
            && Adds(Times(l.names, ip), Times(l'.names, ip), HelloFrom(e, ip) && NewName(g, w, e), at)
            && Adds(Times(l.datagrams, ip), Times(l'.datagrams, ip), DatagramFrom(e, ip), at)
  {
  }

  lemma HellosGrow(steps: seq<Step>, k: nat, ip: string, from: int, to: int, ts: seq<int>, ts': seq<int>)
    requires k < |steps| && |HellosIn(steps, k, ip, from, to)| == CountIn(ts, from, to)
    requires Adds(ts, ts', HelloFrom(steps[k].event, ip), steps[k].at)
    ensures |HellosIn(steps, k + 1, ip, from, to)| == CountIn(ts', from, to)
  {
    var ok, at := HelloFrom(steps[k].event, ip), steps[k].at;
    var before, after := HellosIn(steps, k, ip, from, to), HellosIn(steps, k + 1, ip, from, to);
    assert after == if ok && from <= at <= to then before + {k} else before;
    OneMoreIn(before, after, k, ts, ts', ok, at, from, to);
  }

  lemma NamesGrow(g: Setting, steps: seq<Step>, worlds: seq<World>, k: nat, ip: string, from: int, to: int,
                  ts: seq<int>, ts': seq<int>)
    requires k < |steps| && k < |worlds| && |NamesIn(g, steps, worlds, k, ip, from, to)| == CountIn(ts, from, to)
    requires Adds(ts, ts', HelloFrom(steps[k].event, ip) && NewName(g, worlds[k], steps[k].event), steps[k].at)
    ensures |NamesIn(g, steps, worlds, k + 1, ip, from, to)| == CountIn(ts', from, to)
  {
    var ok, at := HelloFrom(steps[k].event, ip) && NewName(g, worlds[k], steps[k].event), steps[k].at;
    var before, after := NamesIn(g, steps, worlds, k, ip, from, to), NamesIn(g, steps, worlds, k + 1, ip, from, to);
    assert after == if ok && from <= at <= to then before + {k} else before;
    OneMoreIn(before, after, k, ts, ts', ok, at, from, to);
  }

  lemma DatagramsGrow(steps: seq<Step>, k: nat, ip: string, from: int, to: int, ts: seq<int>, ts': seq<int>)
    requires k < |steps| && |DatagramsIn(steps, k, ip, from, to)| == CountIn(ts, from, to)
    requires Adds(ts, ts', DatagramFrom(steps[k].event, ip), steps[k].at)
    ensures |DatagramsIn(steps, k + 1, ip, from, to)| == CountIn(ts', from, to)
  {
    var ok, at := DatagramFrom(steps[k].event, ip), steps[k].at;
    var before, after := DatagramsIn(steps, k, ip, from, to), DatagramsIn(steps, k + 1, ip, from, to);
    assert after == if ok && from <= at <= to then before + {k} else before;
    OneMoreIn(before, after, k, ts, ts', ok, at, from, to);
  }

  lemma HistoriesGrow(g: Setting, steps: seq<Step>, worlds: seq<World>, k: nat, ip: string, from: int, to: int)
    requires |worlds| == |steps| + 1 && k < |steps| && Histories(g, steps, worlds, k, ip, from, to)
    requires var e, at, l, l' := steps[k].event, steps[k].at, worlds[k].limits, worlds[k + 1].limits;
             && Adds(Times(l.hellos, ip), Times(l'.hellos, ip), HelloFrom(e, ip), at)
             && Adds(Times(l.names, ip), Times(l'.names, ip), HelloFrom(e, ip) && NewName(g, worlds[k], e), at)
             && Adds(Times(l.datagrams, ip), Times(l'.datagrams, ip), DatagramFrom(e, ip), at)
    ensures Histories(g, steps, worlds, k + 1, ip, from, to)
  {
    var l, l' := worlds[k].limits, worlds[k + 1].limits;
    HellosGrow(steps, k, ip, from, to, Times(l.hellos, ip), Times(l'.hellos, ip));
    NamesGrow(g, steps, worlds, k, ip, from, to, Times(l.names, ip), Times(l'.names, ip));
    DatagramsGrow(steps, k, ip, from, to, Times(l.datagrams, ip), Times(l'.datagrams, ip));
  }

  lemma HistoriesNext(g: Setting, steps: seq<Step>, worlds: seq<World>, k: nat, ip: string, from: int, to: int)
    requires IsRun(g, steps, worlds) && k < |steps| && Histories(g, steps, worlds, k, ip, from, to)
    ensures Histories(g, steps, worlds, k + 1, ip, from, to)
  {
    StepInto(g, steps, worlds, k + 1);
    LimitsAdd(g, worlds[k], steps[k].event, steps[k].at, ip);
    HistoriesGrow(g, steps, worlds, k, ip, from, to);
  }

  lemma HistoriesStart(g: Setting, steps: seq<Step>, worlds: seq<World>, ip: string, from: int, to: int)
    requires |worlds| == |steps| + 1 && worlds[0].limits == Limits(map[], map[], map[])
    ensures Histories(g, steps, worlds, 0, ip, from, to)
  {
    assert HellosIn(steps, 0, ip, from, to) == {} && NamesIn(g, steps, worlds, 0, ip, from, to) == {};
    assert DatagramsIn(steps, 0, ip, from, to) == {};
  }

  lemma {:induction false} HistoriesKept(g: Setting, steps: seq<Step>, worlds: seq<World>, k: nat, ip: string,
                                         from: int, to: int)
    requires IsRun(g, steps, worlds) && k < |worlds|
    ensures Histories(g, steps, worlds, k, ip, from, to)
  {
    if k == 0 {
      HistoriesStart(g, steps, worlds, ip, from, to);
    } else {
      HistoriesKept(g, steps, worlds, k - 1, ip, from, to);
      HistoriesNext(g, steps, worlds, k - 1, ip, from, to);
    }
  }

  /** In every run, of one address, at most ten HELLOs and five new names get
      past their limiters in any minute, and at most 200 datagrams in any
      second. */
  lemma LimitsHold(g: Setting, steps: seq<Step>, worlds: seq<World>, k: nat, ip: string, from: int)
    requires IsRun(g, steps, worlds) && k < |worlds|
    ensures |HellosIn(steps, k, ip, from, from + 60_000)| <= 10
    ensures |NamesIn(g, steps, worlds, k, ip, from, from + 60_000)| <= 5
    ensures |DatagramsIn(steps, k, ip, from, from + 1_000)| <= 200
  {
    AlwaysWithinRate(g, steps, worlds, k);
    HistoriesKept(g, steps, worlds, k, ip, from, from + 60_000);
    HistoriesKept(g, steps, worlds, k, ip, from, from + 1_000);
    var l, now := worlds[k].limits, worlds[k].now;
    assert Fits(Times(l.hellos, ip), now, RATE_LIMIT_WINDOW, RATE_LIMIT_MAX);
    assert Fits(Times(l.names, ip), now, PENDING_FP_WINDOW, PENDING_FP_MAX);
    assert Fits(Times(l.datagrams, ip), now, UDP_RATE_LIMIT_WINDOW, UDP_RATE_LIMIT_PACKETS);
    AtMostMaxInAnyWindow(Times(l.hellos, ip), from, RATE_LIMIT_WINDOW, RATE_LIMIT_MAX);
    AtMostMaxInAnyWindow(Times(l.names, ip), from, PENDING_FP_WINDOW, PENDING_FP_MAX);
    AtMostMaxInAnyWindow(Times(l.datagrams, ip), from, UDP_RATE_LIMIT_WINDOW, UDP_RATE_LIMIT_PACKETS);
  }

  lemma SinceIsCounted(g: Setting, steps: seq<Step>, worlds: seq<World>, k: nat, ip: string, from: int)
    requires IsRun(g, steps, worlds) && k < |steps|
    ensures |HellosIn(steps, k, ip, from, steps[k].at)| == CountSince(Times(worlds[k].limits.hellos, ip), from)
    ensures |NamesIn(g, steps, worlds, k, ip, from, steps[k].at)| == CountSince(Times(worlds[k].limits.names, ip), from)
    ensures |DatagramsIn(steps, k, ip, from, steps[k].at)| == CountSince(Times(worlds[k].limits.datagrams, ip), from)
  {
    StepInto(g, steps, worlds, k + 1);
    AlwaysWithinRate(g, steps, worlds, k);
    HistoriesKept(g, steps, worlds, k, ip, from, steps[k].at);
    var l, now := worlds[k].limits, worlds[k].now;
    assert Fits(Times(l.hellos, ip), now, RATE_LIMIT_WINDOW, RATE_LIMIT_MAX);
    assert Fits(Times(l.names, ip), now, PENDING_FP_WINDOW, PENDING_FP_MAX);
    assert Fits(Times(l.datagrams, ip), now, UDP_RATE_LIMIT_WINDOW, UDP_RATE_LIMIT_PACKETS);
    SinceIsIn(Times(l.hellos, ip), from, steps[k].at);
    SinceIsIn(Times(l.names, ip), from, steps[k].at);
    SinceIsIn(Times(l.datagrams, ip), from, steps[k].at);
  }

  lemma VerdictAt(g: Setting, steps: seq<Step>, worlds: seq<World>, k: nat)
    requires IsRun(g, steps, worlds) && k < |steps|
    ensures VerdictsRight(worlds[k].limits, steps[k].event, steps[k].at)
  {
    StepInto(g, steps, worlds, k + 1);
  }

  /** And nobody is turned away without need: in every run a HELLO, a new name or a
      datagram is let through if and only if fewer than ten, five or 200 of its
      address were, up to now, in the last minute or second. */
  lemma TurnedAwayExactly(g: Setting, steps: seq<Step>, worlds: seq<World>, k: nat)
    requires IsRun(g, steps, worlds) && k < |steps|
    ensures var e, at := steps[k].event, steps[k].at;
            match e
            case HelloMsg(h, _, allowed, fpAllowed) =>
              && (allowed <==> |HellosIn(steps, k, h.ip, at - 60_000, at)| < 10)
              && (fpAllowed <==> |NamesIn(g, steps, worlds, k, h.ip, at - 60_000, at)| < 5)
            case Datagram(_, ip, _, udpAllowed) => udpAllowed <==> |DatagramsIn(steps, k, ip, at - 1_000, at)| < 200
            case _ => true
  {
    var e, at := steps[k].event, steps[k].at;
    VerdictAt(g, steps, worlds, k);
    match e
    case HelloMsg(h, _, _, _) => SinceIsCounted(g, steps, worlds, k, h.ip, at - 60_000);
    case Datagram(_, ip, _, _) => SinceIsCounted(g, steps, worlds, k, ip, at - 1_000);
    case _ =>
  }

  // -------------------------------------------------------------------------
  // Accepted heartbeats are datagrams that were let through

  /** The times at which heartbeats from an address were accepted. */
  function AcceptTimes(accepts: seq<Accept>, ip: string): seq<int> {
    if accepts == [] then []
    else
      var last := accepts[|accepts| - 1];
      AcceptTimes(accepts[..|accepts| - 1], ip) + if last.ip == ip then [last.at] else []
  }

  lemma AcceptTimesOneMore(accepts: seq<Accept>, a: Accept, ip: string)
    ensures AcceptTimes(accepts + [a], ip) == AcceptTimes(accepts, ip) + if a.ip == ip then [a.at] else []
  {
    assert (accepts + [a])[..|accepts|] == accepts;
  }

  /** From no time on are there more of these than of those. */
  ghost predicate NoMore(these: seq<int>, those: seq<int>) {
    forall cutoff: int :: CountSince(these, cutoff) <= CountSince(those, cutoff)
  }

  lemma CountOneMore(ts: seq<int>, t: int, cutoff: int)
    ensures CountSince(ts + [t], cutoff) == CountSince(ts, cutoff) + if t >= cutoff then 1 else 0
  {
    assert (ts + [t])[..|ts|] == ts;
  }

  lemma NoMoreOfBoth(these: seq<int>, those: seq<int>, t: int)
    requires NoMore(these, those)
    ensures NoMore(these + [t], those + [t]) && NoMore(these, those + [t])
  {
    forall cutoff: int
      ensures CountSince(these + [t], cutoff) <= CountSince(those + [t], cutoff)
      ensures CountSince(these, cutoff) <= CountSince(those + [t], cutoff)
    {
      CountOneMore(these, t, cutoff);
      CountOneMore(those, t, cutoff);
    }
  }

  /** The accepted ones of an address are some of those let through, and so they
      are as far apart. */
  ghost predicate Counted(accepts: seq<Accept>, h: History, now: int, ip: string) {
    && Fits(AcceptTimes(accepts, ip), now, UDP_RATE_LIMIT_WINDOW, UDP_RATE_LIMIT_PACKETS)
    && NoMore(AcceptTimes(accepts, ip), Times(h, ip))
  }

  ghost predicate AllCounted(w: World) {
    forall ip: string {:trigger Counted(w.accepts, w.limits.datagrams, w.now, ip)} ::
      Counted(w.accepts, w.limits.datagrams, w.now, ip)
  }

  lemma CountedOneMore(accepts: seq<Accept>, h: History, now: int, ip: string, a: Accept)
    requires Counted(accepts, h, now, ip) && now <= a.at && a.ip == ip
    requires WouldAllow(h, ip, a.at, UDP_RATE_LIMIT_WINDOW, UDP_RATE_LIMIT_PACKETS)
    ensures Counted(accepts + [a], Record(h, ip, a.at), a.at, ip)
  {
    var ts := AcceptTimes(accepts, ip);
    AcceptTimesOneMore(accepts, a, ip);
    NoMoreOfBoth(ts, Times(h, ip), a.at);
    assert CountSince(ts, a.at - UDP_RATE_LIMIT_WINDOW) <= CountSince(Times(h, ip), a.at - UDP_RATE_LIMIT_WINDOW);
    RecordKeepsSpaced(ts, a.at, UDP_RATE_LIMIT_WINDOW, UDP_RATE_LIMIT_PACKETS);
  }

  lemma CountedStays(accepts: seq<Accept>, h: History, now: int, ip: string, from: string, ok: bool, at: int)
    requires Counted(accepts, h, now, ip) && now <= at
    ensures Counted(accepts, Recorded(h, from, at, ok), at, ip)
  {
    if ok && from == ip {
      NoMoreOfBoth(AcceptTimes(accepts, ip), Times(h, ip), at);
    }
  }

  lemma AcceptedDatagram(g: Setting, w: World, e: Event, at: int)
    ensures Accepted(g, w, e, at) != [] ==>
              && e.Datagram? && e.udpAllowed
              && Accepted(g, w, e, at) == [Accepted(g, w, e, at)[0]]
              && Accepted(g, w, e, at)[0].ip == e.ip && Accepted(g, w, e, at)[0].at == at
  {
  }

  /** What one step adds to the accepted heartbeats and to the datagrams that
      were let through. */
  predicate Tallied(w: World, from: string, ok: bool, accepted: seq<Accept>, w': World) {
    && w.now <= w'.now && w'.accepts == w.accepts + accepted
    && w'.limits.datagrams == Recorded(w.limits.datagrams, from, w'.now, ok)
    && (accepted != [] ==>
          && accepted == [accepted[0]] && ok && accepted[0].ip == from && accepted[0].at == w'.now
          && WouldAllow(w.limits.datagrams, from, w'.now, UDP_RATE_LIMIT_WINDOW, UDP_RATE_LIMIT_PACKETS))
  }

  lemma TallyCounts(w: World, from: string, ok: bool, accepted: seq<Accept>, w': World, ip: string)
    requires Tallied(w, from, ok, accepted, w') && Counted(w.accepts, w.limits.datagrams, w.now, ip)
    ensures Counted(w'.accepts, w'.limits.datagrams, w'.now, ip)
  {
    if accepted == [] {
      assert w'.accepts == w.accepts;
      CountedStays(w.accepts, w.limits.datagrams, w.now, ip, from, ok, w'.now);
    } else {
      var a := accepted[0];
      assert w'.accepts == w.accepts + [a];
      if from == ip {
        CountedOneMore(w.accepts, w.limits.datagrams, w.now, ip, a);
      } else {
        AcceptTimesOneMore(w.accepts, a, ip);
        assert AcceptTimes(w'.accepts, ip) == AcceptTimes(w.accepts, ip);
        CountedStays(w.accepts, w.limits.datagrams, w.now, ip, from, ok, w'.now);
      }
    }
  }

  lemma TallyKeepsCounted(w: World, from: string, ok: bool, accepted: seq<Accept>, w': World)
    requires AllCounted(w) && Tallied(w, from, ok, accepted, w')
    ensures AllCounted(w')
  {
    forall ip: string
      ensures Counted(w'.accepts, w'.limits.datagrams, w'.now, ip)
    {
      assert Counted(w.accepts, w.limits.datagrams, w.now, ip);
      TallyCounts(w, from, ok, accepted, w', ip);
    }
  }

  lemma StepTallied(g: Setting, w: World, s: Step, w': World)
    requires Goes(g, w, s, w')
    ensures if s.event.Datagram?
            then Tallied(w, s.event.ip, s.event.udpAllowed, Accepted(g, w, s.event, s.at), w')
            else Tallied(w, "", false, [], w')
  {
    AcceptedDatagram(g, w, s.event, s.at);
  }

  lemma CountedNext(g: Setting, steps: seq<Step>, worlds: seq<World>, k: nat)
    requires IsRun(g, steps, worlds) && 0 < k < |worlds| && AllCounted(worlds[k - 1])
    ensures AllCounted(worlds[k])
  {
    StepInto(g, steps, worlds, k);
    var w, s, w' := worlds[k - 1], steps[k - 1], worlds[k];
    StepTallied(g, w, s, w');
    if s.event.Datagram? {
      TallyKeepsCounted(w, s.event.ip, s.event.udpAllowed, Accepted(g, w, s.event, s.at), w');
    } else {
      TallyKeepsCounted(w, "", false, [], w');
    }
  }

  lemma {:induction false} AlwaysCounted(g: Setting, steps: seq<Step>, worlds: seq<World>, k: nat)
    requires IsRun(g, steps, worlds) && k < |worlds|
    ensures AllCounted(worlds[k])
  {
    if k > 0 {
      AlwaysCounted(g, steps, worlds, k - 1);
      CountedNext(g, steps, worlds, k);
    }
  }

  // -------------------------------------------------------------------------
  // One session, one address

  /** What a session has accepted came from the address it is pinned to. */
  predicate FromPinned(w: World, fp: Fp) {
    fp in w.auth.sessions ==>
      forall a | a in w.accepts && a.key == w.auth.sessions[fp].key :: w.auth.sessions[fp].udpIp == Some(a.ip)
  }

  predicate OneAddress(accepts: seq<Accept>) {
    forall a, b | a in accepts && b in accepts && a.key == b.key :: a.ip == b.ip
  }

  predicate Pinned(w: World) {
    OneAddress(w.accepts) && forall fp | fp in w.auth.sessions :: FromPinned(w, fp)
  }

  lemma OneMoreAddress(accepts: seq<Accept>, a: Accept)
    requires OneAddress(accepts) && forall x | x in accepts && x.key == a.key :: x.ip == a.ip
    ensures OneAddress(accepts + [a])
  {
  }

  lemma TakenFromPinned(c: Suite, w: World, a: Accept, w': World)
    requires Replay.Distinct(w) && Replay.SessionsKnown(w) && Pinned(w) && Replay.Takes(c, w, a, w')
    ensures Pinned(w')
  {
    var name := a.beat.name;
    assert FromPinned(w, name) && Evolves(w.auth.sessions[name], w'.auth.sessions[name]);
    OneMoreAddress(w.accepts, a);
    forall fp | fp in w'.auth.sessions
      ensures FromPinned(w', fp)
    {
      assert FromPinned(w, fp);
      if fp != name && w.auth.sessions[fp].key == a.key {
        Replay.OneName(w, a.key, fp, name);
      }
    }
  }

  lemma OldSessionsPinned(w: World, w': World)
    requires Pinned(w) && w'.accepts == w.accepts
    requires forall fp | fp in w'.auth.sessions ::
               fp in w.auth.sessions && Evolves(w.auth.sessions[fp], w'.auth.sessions[fp])
    ensures Pinned(w')
  {
    forall fp | fp in w'.auth.sessions
      ensures FromPinned(w', fp)
    {
      assert FromPinned(w, fp);
    }
  }

  lemma NewSessionPinned(g: Setting, w: World, e: Event, w': World)
    requires Replay.Distinct(w') && Replay.AcceptsKnown(g.c, w) && Pinned(w) && w'.accepts == w.accepts
    requires w'.installs != w.installs && Grants.InstallsFollow(g, w, e, w')
    ensures Pinned(w')
  {
    var i := w'.installs[|w.installs|];
    forall a | a in w.accepts
      ensures a.key != i.key
    {
      assert Replay.Passed(g.c, w, a);
      Replay.NewKeyIsNew(w, i, w', a.beat.name);
    }
    forall fp | fp in w'.auth.sessions
      ensures FromPinned(w', fp)
    {
      assert fp != i.fp ==> FromPinned(w, fp);
    }
  }

  lemma StepKeepsPinned(g: Setting, w: World, s: Step, w': World)
    requires Goes(g, w, s, w') && Pinned(w) && Replay.BothKnown(g, w) && Replay.Distinct(w) && Replay.Distinct(w')
    ensures Pinned(w')
  {
    var e, at := s.event, s.at;
    if Accepted(g, w, e, at) != [] {
      AcceptedDatagram(g, w, e, at);
      Replay.TakenEffect(g, w, e, at, w');
      TakenFromPinned(g.c, w, Accepted(g, w, e, at)[0], w');
    } else {
      Grants.InstallEffect(g, w, e, at);
      Grants.SessionsEffect(g, w, e, at);
      if w'.installs != w.installs {
        NewSessionPinned(g, w, e, w');
      } else {
        OldSessionsPinned(w, w');
      }
    }
  }

  lemma PinnedNext(g: Setting, steps: seq<Step>, worlds: seq<World>, k: nat)
    requires IsRun(g, steps, worlds) && 0 < k < |worlds| && Pinned(worlds[k - 1])
    ensures Pinned(worlds[k])
  {
    StepInto(g, steps, worlds, k);
    Replay.AlwaysKnown(g, steps, worlds, k - 1);
    Replay.AlwaysDistinct(g, steps, worlds, k - 1);
    Replay.AlwaysDistinct(g, steps, worlds, k);
    StepKeepsPinned(g, worlds[k - 1], steps[k - 1], worlds[k]);
  }

  lemma {:induction false} AlwaysPinned(g: Setting, steps: seq<Step>, worlds: seq<World>, k: nat)
    requires IsRun(g, steps, worlds) && k < |worlds|
    ensures Pinned(worlds[k])
  {
    if k > 0 {
      AlwaysPinned(g, steps, worlds, k - 1);
      PinnedNext(g, steps, worlds, k);
    }
  }

  // -------------------------------------------------------------------------
  // Replays take time

  /** If one key's heartbeats all come from one address, there are at least as
      many accepted from there as nonces taken under the key. */
  lemma {:induction false} NoncesAreAccepts(accepts: seq<Accept>, key: Bytes, ip: string)
    requires forall a | a in accepts && a.key == key :: a.ip == ip
    ensures |Replay.NoncesUnder(accepts, key)| <= |AcceptTimes(accepts, ip)|
  {
    if accepts != [] {
      NoncesAreAccepts(accepts[..|accepts| - 1], key, ip);
    }
  }

  lemma {:induction false} AcceptTimesSplit(accepts: seq<Accept>, rest: seq<Accept>, ip: string)
    ensures AcceptTimes(accepts + rest, ip) == AcceptTimes(accepts, ip) + AcceptTimes(rest, ip)
  {
    if rest == [] {
      assert accepts + rest == accepts;
    } else {
      var init, last := rest[..|rest| - 1], rest[|rest| - 1];
      AcceptTimesSplit(accepts, init, ip);
      assert accepts + rest == (accepts + init) + [last];
      AcceptTimesOneMore(accepts + init, last, ip);
    }
  }

  /** Two accepts of one address, with `n` others from there in between. */
  lemma FarApart(accepts: seq<Accept>, i: nat, j: nat, now: int)
    requires i < j < |accepts| && accepts[i].ip == accepts[j].ip
    requires Fits(AcceptTimes(accepts, accepts[i].ip), now, UDP_RATE_LIMIT_WINDOW, UDP_RATE_LIMIT_PACKETS)
    requires |AcceptTimes(accepts[i + 1..j], accepts[i].ip)| >= NONCE_HISTORY_LEN
    ensures accepts[j].at - accepts[i].at > 2 * UDP_RATE_LIMIT_WINDOW
  {
    var ip := accepts[i].ip;
    var ts := AcceptTimes(accepts, ip);
    var before, between := AcceptTimes(accepts[..i], ip), AcceptTimes(accepts[i + 1..j], ip);
    assert accepts == ((accepts[..i] + [accepts[i]]) + accepts[i + 1..j]) + [accepts[j]] + accepts[j + 1..];
    AcceptTimesSplit(((accepts[..i] + [accepts[i]]) + accepts[i + 1..j]) + [accepts[j]], accepts[j + 1..], ip);
    AcceptTimesOneMore((accepts[..i] + [accepts[i]]) + accepts[i + 1..j], accepts[j], ip);
    AcceptTimesSplit(accepts[..i] + [accepts[i]], accepts[i + 1..j], ip);
    AcceptTimesOneMore(accepts[..i], accepts[i], ip);
    var p, q := |before|, |before| + 1 + |between|;
    assert ts[p] == accepts[i].at && ts[q] == accepts[j].at;
    assert ts[p] + UDP_RATE_LIMIT_WINDOW < ts[p + UDP_RATE_LIMIT_PACKETS];
    assert ts[p + UDP_RATE_LIMIT_PACKETS] + UDP_RATE_LIMIT_WINDOW < ts[q];
  }

  /** A heartbeat that is accepted again, in any run, is so more than two seconds
      later: the datagram limiter lets the nonces that must come in between
      through no faster. */
  lemma ReplayTakesTime(g: Setting, steps: seq<Step>, worlds: seq<World>, k: nat, i: nat, j: nat)
    requires IsRun(g, steps, worlds) && k < |worlds|
    requires i < j < |worlds[k].accepts| && worlds[k].accepts[i].beat == worlds[k].accepts[j].beat
    ensures worlds[k].accepts[j].at - worlds[k].accepts[i].at > 2 * UDP_RATE_LIMIT_WINDOW
  {
    var accepts, now := worlds[k].accepts, worlds[k].now;
    Replay.AcceptedAtMostOnce(g, steps, worlds, k, i, j);
    AlwaysPinned(g, steps, worlds, k);
    AlwaysCounted(g, steps, worlds, k);
    var a := accepts[i];
    assert a in accepts && accepts[j] in accepts;
    assert Counted(accepts, worlds[k].limits.datagrams, now, a.ip);
    NoncesAreAccepts(accepts[i + 1..j], a.key, a.ip);
    FarApart(accepts, i, j, now);
  }
}
