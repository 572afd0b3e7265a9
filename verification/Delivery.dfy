/** What becomes of one frame's fragments on their way through the
    reassembler, whatever else arrives in between. */
module Delivery {
  import opened Wrappers
  import opened Wire
  import opened Sums
  import opened Aead
  import opened Reassembler

  /** One call of the reassembler: what the parser made of the packet, what had
      been sealed by then, and the two clock readings. */
  datatype Arrival = Arrival(input: Parsed, log: Log, now: int, stamp: int)

  function Step(r: Receiver, key: Bytes, a: Arrival): (Receiver, Option<Frame>)
    requires r.Valid()
  {
    Take(r, a.input, key, a.log, a.now, a.stamp)
  }

  predicate Steps(key: Bytes, r: Receiver, a: Arrival, r': Receiver, out: Option<Frame>) {
    r.Valid() && (r', out) == Step(r, key, a)
  }

  /** A whole run of one receiver: what came, the states it went through, and
      what each call returned. */
  datatype Run = Run(key: Bytes, arrivals: seq<Arrival>, states: seq<Receiver>, outs: seq<Option<Frame>>) {
    predicate Valid() {
      && |states| == |arrivals| + 1 && |outs| == |arrivals|
      && states[0].Valid()
      && forall k | 0 <= k < |arrivals| :: Steps(key, states[k], arrivals[k], states[k + 1], outs[k])
    }

    /** No packet can bring a run to a halt. */
    lemma Extends(a: Arrival) returns (longer: Run)
      requires Valid()
      ensures longer.Valid() && longer.key == key && longer.arrivals == arrivals + [a]
    {
      var n := |arrivals|;
      var r := states[n];
      if n > 0 {
        var before, last := states[n - 1], arrivals[n - 1];
        assert Steps(key, before, last, states[n - 1 + 1], outs[n - 1]);
        TakeKeepsValid(before, last.input, key, last.log, last.now, last.stamp);
      }
      var (r', out) := Step(r, key, a);
      longer := Run(key, arrivals + [a], states + [r'], outs + [out]);
    }
  }

  // -------------------------------------------------------------------------
  // One frame among the traffic

  /** A frame in pieces, for the receiver that holds `key`: its sequence
      number, its plaintext, and the buffer that holds all its fragments. */
  datatype Sent = Sent(key: Bytes, seqNo: nat, frame: Bytes, whole: Buffer) {
    predicate Valid() {
      && seqNo < Pow256(8)
      && 0 < whole.fragCount
      && whole.fragments.Keys == Below(whole.fragCount)
    }

    function Seal(): Sealed
      requires Valid()
    {
      Sealed(key, whole.nonce, Pack(seqNo, 8), Join(whole.fragments, whole.fragCount))
    }

    function Expected(): Frame {
      Frame(frame, whole.codecTag, whole.flags % 2 == 1)
    }

    /** The fragment is one of this frame's. */
    predicate Carries(f: Fragment) {
      && f.seqNo == seqNo && f.index in whole.fragments && f.chunk == whole.fragments[f.index]
      && f.count == whole.fragCount && f.codecTag == whole.codecTag && f.flags == whole.flags && f.nonce == whole.nonce
    }

    predicate Logged(log: Log)
      requires Valid()
    {
      Seal() in log && log[Seal()] == frame
    }

    /** The traffic may hold anything, but what bears this frame's sequence
        number is one of its own fragments, and the frame is in the log. */
    predicate Genuine(a: Arrival)
      requires Valid()
    {
      && (a.input.Some? && a.input.value.seqNo == seqNo ==> Carries(a.input.value))
      && Logged(a.log)
    }

    function Index(a: Arrival): set<nat> {
      if a.input.Some? && a.input.value.seqNo == seqNo then {a.input.value.index} else {}
    }

    /** The indices of this frame that a run has brought. */
    function Got(run: seq<Arrival>): set<nat> {
      if run == [] then {} else Got(run[..|run| - 1]) + Index(run[|run| - 1])
    }

    predicate Complete(d: set<nat>) {
      d == whole.fragments.Keys
    }

    /** After one of its fragments, with `d` now there: the frame is out, or
        nothing is and it is still awaited. */
    predicate Progress(r: Receiver, out: Option<Frame>, d: set<nat>) {
      if Complete(d) then out == Some(Expected()) && r.last == seqNo else out == None && Tracks(r, seqNo, whole, d)
    }
  }

  /** The receiver has exactly the fragments `d` of the frame, and can still
      use them. */
  predicate Tracks(r: Receiver, q: nat, whole: Buffer, d: set<nat>) {
    && r.last < q
    && d < whole.fragments.Keys
    && (q in r.buffers <==> d != {})
    && (d != {} ==> Holds(r.buffers[q], whole, d))
  }

  /** `buf` is `whole` as far as the fragments `d` go. */
  predicate Holds(buf: Buffer, whole: Buffer, d: set<nat>) {
    && buf.fragments.Keys == d <= whole.fragments.Keys
    && (forall i | i in d :: buf.fragments[i] == whole.fragments[i])
    && buf.fragCount == whole.fragCount && buf.codecTag == whole.codecTag
    && buf.flags == whole.flags && buf.nonce == whole.nonce
  }

  // -------------------------------------------------------------------------
  // The ways to lose a frame

  /** The packet starts a frame the receiver holds nothing of. */
  predicate OpensFrame(r: Receiver, a: Arrival) {
    a.input.Some? && r.last < a.input.value.seqNo && a.input.value.seqNo !in r.buffers
  }

  /** A newer frame is delivered while this one is still awaited. */
  predicate Superseded(r: Receiver, r': Receiver, q: nat) {
    r.last < q < r'.last
  }

  /** The frame's buffer is too old when another frame is opened. */
  predicate TimedOut(r: Receiver, a: Arrival, q: nat) {
    OpensFrame(r, a) && q in r.buffers && a.now - r.buffers[q].timestamp > STALE_AFTER_MS
  }

  /** A limit evicts the frame's buffer to make room for another frame. */
  predicate EvictedByLimit(r: Receiver, a: Arrival, q: nat) {
    && OpensFrame(r, a) && q in NotStale(r.buffers, a.now)
    && q !in Admit(NotStale(r.buffers, a.now), |a.input.value.chunk|)
  }

  /** The call that takes `r` to `r'` loses frame `q`. */
  predicate Lost(r: Receiver, a: Arrival, r': Receiver, q: nat) {
    Superseded(r, r', q) || TimedOut(r, a, q) || EvictedByLimit(r, a, q)
  }

  // -------------------------------------------------------------------------
  // One step

  /** One of the frame's own fragments, but not the last one missing. */
  lemma StoreOneMore(s: Sent, b: Buffers, last: int, f: Fragment, d: set<nat>, log: Log)
    requires s.Valid() && s.Carries(f) && f.Encodable() && f.Acceptable() && last < f.seqNo
    requires f.seqNo in b && HasRoom(b[f.seqNo]) && Holds(b[f.seqNo], s.whole, d)
    requires !s.Complete(d + {f.index})
    ensures Store(b, last, f, s.key, log).1 == None
    ensures Tracks(Store(b, last, f, s.key, log).0, f.seqNo, s.whole, d + {f.index})
  {
    var buf := b[f.seqNo];
    if f.index in d {
      assert d + {f.index} == d;
    } else {
      var full := buf.Add(f.index, f.chunk);
      assert full.fragments.Keys == d + {f.index};
      FewerIndices(d + {f.index}, s.whole.fragCount);
    }
  }

  /** The last one missing. */
  lemma StoreLast(s: Sent, b: Buffers, last: int, f: Fragment, d: set<nat>, log: Log)
    requires s.Valid() && s.Carries(f) && f.Encodable() && f.Acceptable() && s.Logged(log)
    requires f.seqNo in b && HasRoom(b[f.seqNo]) && Holds(b[f.seqNo], s.whole, d) && d < s.whole.fragments.Keys
    requires s.Complete(d + {f.index})
    ensures Store(b, last, f, s.key, log).1 == Some(s.Expected())
    ensures Store(b, last, f, s.key, log).0.last == s.seqNo
  {
    var full := b[f.seqNo].Add(f.index, f.chunk);
    assert full.fragments.Keys == s.whole.fragments.Keys;
    BelowSize(s.whole.fragCount);
    assert full.fragments == s.whole.fragments;
  }

  lemma StoreOwn(s: Sent, b: Buffers, last: int, f: Fragment, d: set<nat>, log: Log)
    requires s.Valid() && s.Carries(f) && f.Encodable() && f.Acceptable() && s.Logged(log) && last < f.seqNo
    requires f.seqNo in b && HasRoom(b[f.seqNo]) && Holds(b[f.seqNo], s.whole, d) && d < s.whole.fragments.Keys
    ensures s.Progress(Store(b, last, f, s.key, log).0, Store(b, last, f, s.key, log).1, d + {f.index})
  {
    if s.Complete(d + {f.index}) {
      StoreLast(s, b, last, f, d, log);
    } else {
      StoreOneMore(s, b, last, f, d, log);
    }
  }

  /** One of the frame's own fragments: nothing comes out until it is the last
      one missing, and then exactly the frame. */
  lemma OwnFragment(s: Sent, r: Receiver, d: set<nat>, a: Arrival)
    requires r.Valid() && s.Valid() && Tracks(r, s.seqNo, s.whole, d) && s.Genuine(a) && s.Index(a) != {}
    ensures s.Progress(Step(r, s.key, a).0, Step(r, s.key, a).1, d + s.Index(a))
  {
    var f := a.input.value;
    OpenedFrames(r, f, a.now, a.stamp);
    StoreOwn(s, Opened(r.buffers, f, a.now, a.stamp), r.last, f, d, a.log);
  }

  /** Any other packet leaves the frame alone, unless it loses it. */
  lemma OtherFragment(s: Sent, r: Receiver, d: set<nat>, a: Arrival)
    requires r.Valid() && Tracks(r, s.seqNo, s.whole, d) && s.Index(a) == {}
    requires !Lost(r, a, Step(r, s.key, a).0, s.seqNo)
    ensures Tracks(Step(r, s.key, a).0, s.seqNo, s.whole, d)
  {
    if a.input.Some? && r.last < a.input.value.seqNo {
      var f := a.input.value;
      OpenedFrames(r, f, a.now, a.stamp);
      if f.seqNo !in r.buffers {
        AdmitSurvivors(NotStale(r.buffers, a.now), |f.chunk|);
      }
      StoreElsewhere(Opened(r.buffers, f, a.now, a.stamp), r.last, f, s.key, a.log, s.seqNo);
    }
  }

  /** Storing a fragment touches no other frame's buffer, unless it completes
      a newer frame. */
  lemma StoreElsewhere(b: Buffers, last: int, f: Fragment, key: Bytes, log: Log, q: nat)
    requires f.seqNo in b && HasRoom(b[f.seqNo]) && f.Encodable() && f.Acceptable() && q != f.seqNo
    ensures var r' := Store(b, last, f, key, log).0;
            r'.last > q || (
            && (q in r'.buffers <==> q in b)
            && (q in b ==> r'.buffers[q] == b[q])
            && (last < q ==> r'.last < q))
  {
  }

  /** Where a frame stands when the indices `d` of it have come: all of it has;
      some has not, and the receiver holds exactly what has; or some of that is
      gone. */
  datatype Fate = AllCome | Awaited | Gone

  function FateOf(s: Sent, r: Receiver, d: set<nat>): Fate {
    if s.Complete(d) then AllCome else if Tracks(r, s.seqNo, s.whole, d) then Awaited else Gone
  }

  /** One call while the frame is still awaited. */
  lemma Advance(s: Sent, r: Receiver, d: set<nat>, a: Arrival, r': Receiver, out: Option<Frame>)
    requires s.Valid() && s.Genuine(a) && Steps(s.key, r, a, r', out)
    requires FateOf(s, r, d) == Awaited && !Lost(r, a, r', s.seqNo)
    ensures FateOf(s, r', d + s.Index(a)) != Gone
    ensures s.Complete(d + s.Index(a)) ==> out == Some(s.Expected()) && r'.last == s.seqNo
    ensures s.Index(a) != {} && !s.Complete(d + s.Index(a)) ==> out == None
  {
    if s.Index(a) == {} {
      OtherFragment(s, r, d, a);
      assert d + s.Index(a) == d;
    } else {
      OwnFragment(s, r, d, a);
    }
  }

  /** A frame's own packets cannot lose it. */
  lemma OwnPacketLosesNothing(s: Sent, r: Receiver, d: set<nat>, a: Arrival, r': Receiver, out: Option<Frame>)
    requires s.Valid() && s.Genuine(a) && Steps(s.key, r, a, r', out)
    requires FateOf(s, r, d) == Awaited && s.Index(a) != {}
    ensures !Lost(r, a, r', s.seqNo)
  {
    OwnFragment(s, r, d, a);
  }

  // -------------------------------------------------------------------------
  // Whole runs

  /** The frame is sent to this receiver, which has neither passed nor begun it,
      and nothing but its own fragments bears its number. */
  predicate Meets(s: Sent, run: Run) {
    && s.Valid() && run.Valid() && run.key == s.key
    && run.states[0].last < s.seqNo && s.seqNo !in run.states[0].buffers
    && forall k | 0 <= k < |run.arrivals| :: s.Genuine(run.arrivals[k])
  }

  /** Call number `k` hands out the frame. */
  predicate DeliveredAt(s: Sent, run: Run, k: nat)
    requires run.Valid() && k < |run.arrivals|
  {
    run.outs[k] == Some(s.Expected()) && run.states[k + 1].last == s.seqNo
  }

  predicate LostAt(s: Sent, run: Run, k: nat)
    requires run.Valid() && k < |run.arrivals|
  {
    Lost(run.states[k], run.arrivals[k], run.states[k + 1], s.seqNo)
  }

  lemma GotNext(s: Sent, arrivals: seq<Arrival>, k: nat)
    requires k < |arrivals|
    ensures s.Got(arrivals[..k + 1]) == s.Got(arrivals[..k]) + s.Index(arrivals[k])
    ensures s.Valid() && s.Genuine(arrivals[k]) && s.Complete(s.Got(arrivals[..k])) ==>
              s.Complete(s.Got(arrivals[..k + 1]))
  {
    assert arrivals[..k + 1][..k] == arrivals[..k];
  }

  function FateAt(s: Sent, run: Run, k: nat): Fate
    requires run.Valid() && k <= |run.arrivals|
  {
    FateOf(s, run.states[k], s.Got(run.arrivals[..k]))
  }

  /** As long as nothing loses the frame, the receiver holds exactly what has
      come of it; and the call that brings the last index hands it out. */
  lemma {:induction false} HeldUnlessLost(s: Sent, run: Run, k: nat)
    requires Meets(s, run) && k <= |run.arrivals|
    requires forall j | 0 <= j < k :: !LostAt(s, run, j)
    ensures FateAt(s, run, k) != Gone
    ensures FateAt(s, run, k) == AllCome ==> exists j | 0 <= j < k :: DeliveredAt(s, run, j)
  {
    if k == 0 {
      assert 0 in s.whole.fragments;
    } else {
      HeldUnlessLost(s, run, k - 1);
      GotNext(s, run.arrivals, k - 1);
      assert Steps(s.key, run.states[k - 1], run.arrivals[k - 1], run.states[k - 1 + 1], run.outs[k - 1]);
      if FateAt(s, run, k - 1) == Awaited {
        assert !LostAt(s, run, k - 1);
        var r, d := run.states[k - 1], s.Got(run.arrivals[..k - 1]);
        Advance(s, r, d, run.arrivals[k - 1], run.states[k], run.outs[k - 1]);
        if FateAt(s, run, k) == AllCome {
          assert DeliveredAt(s, run, k - 1);
        }
      }
    }
  }

  // -------------------------------------------------------------------------
  // Only this frame's packets

  predicate OnlyOwnPackets(s: Sent, run: Run) {
    forall k | 0 <= k < |run.arrivals| :: s.Index(run.arrivals[k]) != {}
  }

  lemma {:induction false} ScheduleState(s: Sent, run: Run, k: nat)
    requires Meets(s, run) && OnlyOwnPackets(s, run) && k <= |run.arrivals|
    ensures FateAt(s, run, k) != Gone
    ensures FateAt(s, run, k) == AllCome ==> run.states[k].last == s.seqNo
  {
    if k == 0 {
      assert 0 in s.whole.fragments;
    } else {
      ScheduleState(s, run, k - 1);
      GotNext(s, run.arrivals, k - 1);
      var r, d, a := run.states[k - 1], s.Got(run.arrivals[..k - 1]), run.arrivals[k - 1];
      assert Steps(s.key, r, a, run.states[k - 1 + 1], run.outs[k - 1]);
      if FateAt(s, run, k - 1) == Awaited {
        OwnPacketLosesNothing(s, r, d, a, run.states[k], run.outs[k - 1]);
        Advance(s, r, d, a, run.states[k], run.outs[k - 1]);
      }
    }
  }

  /** Reassembly inverts fragmentation under any schedule: whatever the order
      and the repeats, and whatever else the receiver holds, the one call that
      completes the set of indices returns the frame and every other call
      returns nothing. */
  lemma AnySchedule(s: Sent, run: Run, k: nat)
    requires Meets(s, run) && OnlyOwnPackets(s, run) && k < |run.arrivals|
    ensures run.outs[k] ==
            if s.Complete(s.Got(run.arrivals[..k + 1])) && !s.Complete(s.Got(run.arrivals[..k]))
            then Some(s.Expected()) else None
  {
    ScheduleState(s, run, k);
    GotNext(s, run.arrivals, k);
    var r, d, a := run.states[k], s.Got(run.arrivals[..k]), run.arrivals[k];
    assert Steps(s.key, r, a, run.states[k + 1], run.outs[k]);
    if FateAt(s, run, k) == Awaited {
      OwnPacketLosesNothing(s, r, d, a, run.states[k + 1], run.outs[k]);
      Advance(s, r, d, a, run.states[k + 1], run.outs[k]);
    }
  }

  /** When the index of every arrival is known, so is what has come. */
  lemma {:induction false} GotIsSchedule(s: Sent, arrivals: seq<Arrival>, schedule: seq<nat>, k: nat)
    requires |arrivals| == |schedule| && k <= |schedule|
    requires forall j | 0 <= j < |schedule| :: s.Index(arrivals[j]) == {schedule[j]}
    ensures s.Got(arrivals[..k]) == set i | i in schedule[..k]
  {
    if k > 0 {
      GotIsSchedule(s, arrivals, schedule, k - 1);
      GotNext(s, arrivals, k - 1);
      assert schedule[..k] == schedule[..k - 1] + [schedule[k - 1]];
    }
  }
}
