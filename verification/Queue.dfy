/** The queue of waiting names: what each step does to it, and that it stays in
    the order in which the devices came. */
module Queue {
  import opened AuthModel
  import opened Server
  import AuthServer
  import Grants
  import Requests
  import TrustState

  // -------------------------------------------------------------------------
  // Taking names out

  /** The first occurrence goes, and nothing else. */
  lemma {:induction false} FirstIsRemoved(order: seq<Fp>, fp: Fp) returns (i: nat)
    ensures fp !in order ==> RemoveFirst(order, fp) == order
    ensures fp in order ==>
              && i < |order| && order[i] == fp && fp !in order[..i]
              && RemoveFirst(order, fp) == order[..i] + order[i + 1..]
  {
    i := 0;
    if order != [] && order[0] != fp {
      var n := FirstIsRemoved(order[1..], fp);
      i := n + 1;
      assert order == [order[0]] + order[1..];
      if fp in order[1..] {
        assert order[..i] == [order[0]] + order[1..][..n];
        assert order[i + 1..] == order[1..][n + 1..];
      }
    }
  }

  /** Of several names, the first occurrence of each goes, in whatever order. */
  lemma FirstOfEachIsRemoved(order: seq<Fp>, fps: set<Fp>, fp: Fp)
    ensures RemoveFirstOfAll(order, {}) == order
    ensures fp in fps ==> RemoveFirstOfAll(order, fps) == RemoveFirstOfAll(RemoveFirst(order, fp), fps - {fp})
  {
    AuthServer.RemoveNone(order);
    if fp in fps {
      AuthServer.RemoveOneOfAll(order, fps, fp);
    }
  }

  // -------------------------------------------------------------------------
  // One step

  lemma HelloQueues(g: Setting, w: World, e: Event, at: int)
    requires e.HelloMsg? && Covered(w.auth)
    ensures var order, order' := w.auth.order, AuthAfter(g, w, e, at).order;
            var fp := g.c.fingerprint(e.hello.publicKey);
            if !Requests.Asks(g, w, e, fp) then order' == order
            else if fp in w.auth.trusted then order' == (if fp in order then order else order + [fp])
            else if |w.auth.pending| >= 100 then order != [] && order' == order[1..] + [fp]
            else order' == order + [fp]
  {
    if |w.auth.pending| >= MAX_PENDING {
      FullQueueHasHead(w.auth);
    }
    var fp := g.c.fingerprint(e.hello.publicKey);
    assert fp in w.auth.trusted && fp in w.auth.pending ==> fp in w.auth.order;
  }

  /** An unknown device goes to the end, and if a hundred wait, the head makes room
      for it. A trusted one goes to the end unless its name is there. A request
      that is answered, is too late, or is turned away takes one name with it. */
  lemma QueueExactly(g: Setting, w: World, e: Event, at: int)
    requires Covered(w.auth)
    ensures var order, order' := w.auth.order, AuthAfter(g, w, e, at).order;
            match e
            case HelloMsg(h, _, _, _) =>
              var fp := g.c.fingerprint(h.publicKey);
              if !Requests.Asks(g, w, e, fp) then order' == order
              else if fp in w.auth.trusted then order' == (if fp in order then order else order + [fp])
              else if |w.auth.pending| >= 100 then order != [] && order' == order[1..] + [fp]
              else order' == order + [fp]
            case ResponseMsg(fp, signature) =>
              order' == if fp in w.auth.pending && (at > w.auth.pending[fp].expires
                                                    || Requests.Answers(g.c, w.auth, fp, signature, at))
                        then RemoveFirst(order, fp) else order
            case RejectCmd(fp) => order' == RemoveFirst(order, fp)
            case BlockCmd(fp) => order' == RemoveFirst(order, fp)
            case Collection =>
              order' == RemoveFirstOfAll(order, set fp | fp in w.auth.pending && at > w.auth.pending[fp].expires)
            case _ => order' == order
  {
    match e
    case HelloMsg(_, _, _, _) => HelloQueues(g, w, e, at);
    case ResponseMsg(fp, signature) => Requests.AnsweredExactly(g.c, w.auth, fp, signature, at);
    case Collection =>
      assert StaleRequests(w.auth, at) == set fp | fp in w.auth.pending && at > w.auth.pending[fp].expires;
    case Datagram(_, _, _, _) => Grants.BeatKeepsRest(g, w, e, at);
    case _ =>
  }

  // -------------------------------------------------------------------------
  // Runs

  /** For each name in the queue, a step at which its device said HELLO, in the
      order of time. */
  predicate Dated(g: Setting, steps: seq<Step>, order: seq<Fp>, times: seq<nat>, k: nat)
    requires k <= |steps|
  {
    && |times| == |order| && (forall i, j | 0 <= i < j < |times| :: times[i] < times[j])
    && forall i | 0 <= i < |times| ::
         times[i] < k && steps[times[i]].event.HelloMsg?
         && g.c.fingerprint(steps[times[i]].event.hello.publicKey) == order[i]
  }

  lemma DatedWithout(g: Setting, steps: seq<Step>, order: seq<Fp>, times: seq<nat>, k: nat, i: nat)
    returns (times': seq<nat>)
    requires k <= |steps| && Dated(g, steps, order, times, k) && i < |order|
    ensures Dated(g, steps, order[..i] + order[i + 1..], times', k)
  {
    times' := times[..i] + times[i + 1..];
  }

  lemma DatedWithoutFirst(g: Setting, steps: seq<Step>, order: seq<Fp>, times: seq<nat>, k: nat, fp: Fp)
    returns (times': seq<nat>)
    requires k <= |steps| && Dated(g, steps, order, times, k)
    ensures Dated(g, steps, RemoveFirst(order, fp), times', k)
  {
    var i := FirstIsRemoved(order, fp);
    times' := times;
    if fp in order {
      times' := DatedWithout(g, steps, order, times, k, i);
    }
  }

  lemma {:induction false} DatedWithoutAll(g: Setting, steps: seq<Step>, order: seq<Fp>, times: seq<nat>, k: nat,
                                           fps: set<Fp>)
    returns (times': seq<nat>)
    requires k <= |steps| && Dated(g, steps, order, times, k)
    ensures Dated(g, steps, RemoveFirstOfAll(order, fps), times', k)
    decreases fps
  {
    if fps == {} {
      FirstOfEachIsRemoved(order, fps, "");
      times' := times;
    } else {
      var fp :| fp in fps;
      FirstOfEachIsRemoved(order, fps, fp);
      times' := DatedWithoutFirst(g, steps, order, times, k, fp);
      times' := DatedWithoutAll(g, steps, RemoveFirst(order, fp), times', k, fps - {fp});
    }
  }

  lemma DatedWithNewcomer(g: Setting, steps: seq<Step>, order: seq<Fp>, times: seq<nat>, k: nat)
    requires k < |steps| && Dated(g, steps, order, times, k) && steps[k].event.HelloMsg?
    ensures Dated(g, steps, order + [g.c.fingerprint(steps[k].event.hello.publicKey)], times + [k], k + 1)
  {
  }

  lemma DatedByHello(g: Setting, steps: seq<Step>, w: World, times: seq<nat>, k: nat, order': seq<Fp>)
    returns (times': seq<nat>)
    requires k < |steps| && Dated(g, steps, w.auth.order, times, k) && steps[k].event.HelloMsg?
    requires var order, fp := w.auth.order, g.c.fingerprint(steps[k].event.hello.publicKey);
             order' == order || order' == order + [fp] || (order != [] && order' == order[1..] + [fp])
    ensures Dated(g, steps, order', times', k + 1)
  {
    var order, fp := w.auth.order, g.c.fingerprint(steps[k].event.hello.publicKey);
    if order' == order {
      times' := times;
    } else if order' == order + [fp] {
      DatedWithNewcomer(g, steps, order, times, k);
      times' := times + [k];
    } else {
      times' := DatedWithout(g, steps, order, times, k, 0);
      assert order[..0] + order[1..] == order[1..];
      DatedWithNewcomer(g, steps, order[1..], times', k);
      times' := times' + [k];
    }
  }

  lemma DatedEither(g: Setting, steps: seq<Step>, w: World, times: seq<nat>, k: nat, fp: Fp, order': seq<Fp>)
    returns (times': seq<nat>)
    requires k < |steps| && Dated(g, steps, w.auth.order, times, k)
    requires order' == w.auth.order || order' == RemoveFirst(w.auth.order, fp)
    ensures Dated(g, steps, order', times', k)
  {
    times' := times;
    if order' != w.auth.order {
      times' := DatedWithoutFirst(g, steps, w.auth.order, times, k, fp);
    }
  }

  lemma DatedNext(g: Setting, steps: seq<Step>, worlds: seq<World>, times: seq<nat>, k: nat)
    returns (times': seq<nat>)
    requires IsRun(g, steps, worlds) && k < |steps| && Dated(g, steps, worlds[k].auth.order, times, k)
    ensures Dated(g, steps, worlds[k + 1].auth.order, times', k + 1)
  {
    var w, e, at := worlds[k], steps[k].event, steps[k].at;
    StepInto(g, steps, worlds, k + 1);
    TrustState.AlwaysSane(g, steps, worlds, k);
    QueueExactly(g, w, e, at);
    times' := times;
    match e
    case HelloMsg(_, _, _, _) => times' := DatedByHello(g, steps, w, times, k, worlds[k + 1].auth.order);
    case ResponseMsg(fp, _) => times' := DatedEither(g, steps, w, times, k, fp, worlds[k + 1].auth.order);
    case RejectCmd(fp) => times' := DatedWithoutFirst(g, steps, w.auth.order, times, k, fp);
    case BlockCmd(fp) => times' := DatedWithoutFirst(g, steps, w.auth.order, times, k, fp);
    case Collection => times' := DatedWithoutAll(g, steps, w.auth.order, times, k, StaleRequests(w.auth, at));
    case _ =>
  }

  /** In every run the queue is in the order of arrival: its names are those of
      HELLOs at later and later steps, so the one that a newcomer evicts has
      waited longest. */
  lemma {:induction false} InOrderOfArrival(g: Setting, steps: seq<Step>, worlds: seq<World>, k: nat)
    returns (times: seq<nat>)
    requires IsRun(g, steps, worlds) && k < |worlds|
    ensures Dated(g, steps, worlds[k].auth.order, times, k)
  {
    times := [];
    if k > 0 {
      times := InOrderOfArrival(g, steps, worlds, k - 1);
      times := DatedNext(g, steps, worlds, times, k - 1);
    }
  }
}
