/** What the reassembler holds of a frame, and when it lets go of it, in terms of
    the packets that came and the times at which they came. */
module Buffering {
  import opened Wrappers
  import opened Wire
  import opened Aead
  import opened Reassembler
  import opened Delivery

  /** The packet is a fragment of frame `q` out of `n`. */
  predicate Brings(a: Arrival, q: nat, n: nat) {
    a.input.Some? && a.input.value.seqNo == q && a.input.value.count == n
  }

  /** What the packets bring of a frame of `n` fragments: of each index the chunk
      that comes first. */
  function Gathered(arrivals: seq<Arrival>, q: nat, n: nat): map<nat, Bytes> {
    if arrivals == [] then map[]
    else
      var before, last := Gathered(arrivals[..|arrivals| - 1], q, n), arrivals[|arrivals| - 1];
      if Brings(last, q, n) && last.input.value.index !in before
      then before[last.input.value.index := last.input.value.chunk]
      else before
  }

  /** The buffer that the first of these packets opens, when all have come. */
  function Grown(arrivals: seq<Arrival>, q: nat): Buffer
    requires arrivals != [] && arrivals[0].input.Some?
  {
    var f := arrivals[0].input.value;
    var fragments := Gathered(arrivals, q, f.count);
    Buffer(fragments, f.count, f.codecTag, f.flags, f.nonce, arrivals[0].stamp, ByteTotal(fragments))
  }

  /** Call `j` brought the first packet of the frame `q` that is still buffered
      before call `k`. */
  predicate OpenedBy(run: Run, q: nat, j: nat, k: nat)
    requires run.Valid()
  {
    && j < k <= |run.arrivals|
    && run.arrivals[j].input.Some? && run.arrivals[j].input.value.seqNo == q && q !in run.states[j].buffers
    && forall m | j < m <= k :: q in run.states[m].buffers
  }

  // -------------------------------------------------------------------------
  // One step

  /** One packet opens a buffer with its own chunk, fields and time. */
  lemma GrownFromOne(a: Arrival)
    requires a.input.Some?
    ensures var f := a.input.value;
            Grown([a], f.seqNo)
            == Buffer(map[f.index := f.chunk], f.count, f.codecTag, f.flags, f.nonce, a.stamp, |f.chunk|)
  {
    var f := a.input.value;
    var none: map<nat, Bytes> := map[];
    assert [a][..0] == [];
    assert Gathered([], f.seqNo, f.count) == none;
    assert Gathered([a], f.seqNo, f.count) == none[f.index := f.chunk];
    ByteTotalAdd(none, f.index, f.chunk);
    assert ChunkSizes(none) == map[];
  }

  lemma StoreFirst(b: Buffers, last: int, f: Fragment, key: Bytes, log: Log, stamp: int)
    requires f.seqNo in b && f.Encodable() && f.Acceptable() && b[f.seqNo] == NewBuffer(f, stamp)
    ensures var r' := Store(b, last, f, key, log).0;
            f.seqNo in r'.buffers ==> r'.buffers[f.seqNo] == NewBuffer(f, stamp).Add(f.index, f.chunk)
  {
  }

  lemma StepOpens(key: Bytes, r: Receiver, a: Arrival, r': Receiver, out: Option<Frame>, q: nat)
    requires Steps(key, r, a, r', out) && q !in r.buffers && q in r'.buffers
    ensures a.input.Some? && a.input.value.seqNo == q
    ensures r'.buffers[q] == Grown([a], q)
  {
    var f := a.input.value;
    OpenedFrames(r, f, a.now, a.stamp);
    var b := Opened(r.buffers, f, a.now, a.stamp);
    if q != f.seqNo {
      StoreElsewhere(b, r.last, f, key, a.log, q);
      assert false;
    }
    StoreFirst(b, r.last, f, key, a.log, a.stamp);
    GrownFromOne(a);
  }

  /** A buffer that stays takes the packet in if it is one of its frame's, with
      the right count and a new index, and is otherwise untouched. */
  lemma StepGrows(key: Bytes, r: Receiver, a: Arrival, r': Receiver, out: Option<Frame>, q: nat)
    requires Steps(key, r, a, r', out) && q in r.buffers && q in r'.buffers
    ensures r'.buffers[q] ==
            if Brings(a, q, r.buffers[q].fragCount) && a.input.value.index !in r.buffers[q].fragments
            then r.buffers[q].Add(a.input.value.index, a.input.value.chunk) else r.buffers[q]
  {
    if a.input.Some? && r.last < a.input.value.seqNo {
      var f := a.input.value;
      OpenedFrames(r, f, a.now, a.stamp);
      var b := Opened(r.buffers, f, a.now, a.stamp);
      if q != f.seqNo {
        StoreElsewhere(b, r.last, f, key, a.log, q);
      }
    }
  }

  // -------------------------------------------------------------------------
  // Over a run

  lemma GatheredNext(arrivals: seq<Arrival>, j: nat, k: nat, q: nat, n: nat)
    requires j <= k < |arrivals|
    ensures Gathered(arrivals[j..k + 1], q, n) ==
            (var before, a := Gathered(arrivals[j..k], q, n), arrivals[k];
             if Brings(a, q, n) && a.input.value.index !in before
             then before[a.input.value.index := a.input.value.chunk] else before)
  {
    var longer := arrivals[j..k + 1];
    assert longer[..|longer| - 1] == arrivals[j..k];
  }

  lemma GrownNext(arrivals: seq<Arrival>, j: nat, i: nat, q: nat, buf: Buffer, buf': Buffer)
    requires j < i < |arrivals| && arrivals[j].input.Some? && buf == Grown(arrivals[j..i], q)
    requires buf' == if Brings(arrivals[i], q, buf.fragCount) && arrivals[i].input.value.index !in buf.fragments
                     then buf.Add(arrivals[i].input.value.index, arrivals[i].input.value.chunk) else buf
    ensures buf' == Grown(arrivals[j..i + 1], q)
  {
    GatheredNext(arrivals, j, i, q, buf.fragCount);
    assert arrivals[j..i + 1][0] == arrivals[j] && arrivals[j..i][0] == arrivals[j];
    if buf' != buf {
      ByteTotalAdd(buf.fragments, arrivals[i].input.value.index, arrivals[i].input.value.chunk);
    }
  }

  /** At any point of any run a buffered frame is made of exactly the packets of
      that number and count that came since it was opened, of each index the
      first, with everything else as in the packet that opened it, and with the
      time at which that came. */
  lemma {:induction false} HoldsFirstArrivals(run: Run, q: nat, j: nat, k: nat)
    requires run.Valid() && OpenedBy(run, q, j, k)
    ensures run.states[k].buffers[q] == Grown(run.arrivals[j..k], q)
  {
    var i := k - 1;
    assert Steps(run.key, run.states[i], run.arrivals[i], run.states[i + 1], run.outs[i]);
    if j == i {
      StepOpens(run.key, run.states[i], run.arrivals[i], run.states[i + 1], run.outs[i], q);
      assert run.arrivals[j..k] == [run.arrivals[j]];
    } else {
      HoldsFirstArrivals(run, q, j, i);
      StepGrows(run.key, run.states[i], run.arrivals[i], run.states[i + 1], run.outs[i], q);
      GrownNext(run.arrivals, j, i, q, run.states[i].buffers[q], run.states[k].buffers[q]);
    }
  }

  /** A buffer that was not there at the start was opened by some call. */
  lemma {:induction false} SomeoneOpened(run: Run, q: nat, k: nat) returns (j: nat)
    requires run.Valid() && k <= |run.arrivals| && q !in run.states[0].buffers && q in run.states[k].buffers
    ensures OpenedBy(run, q, j, k)
  {
    var i := k - 1;
    assert Steps(run.key, run.states[i], run.arrivals[i], run.states[i + 1], run.outs[i]);
    if q in run.states[i].buffers {
      j := SomeoneOpened(run, q, i);
    } else {
      StepOpens(run.key, run.states[i], run.arrivals[i], run.states[i + 1], run.outs[i], q);
      j := i;
    }
  }

  // -------------------------------------------------------------------------
  // Why a frame goes

  /** Call `k` brings the first fragment of a frame the receiver awaits and has
      nothing of. */
  predicate Opens(run: Run, k: nat)
    requires run.Valid() && k < |run.arrivals|
  {
    OpensFrame(run.states[k], run.arrivals[k])
  }

  /** Another frame is opened more than a second and a half after this one was. */
  predicate TooOld(run: Run, q: nat, k: nat)
    requires run.Valid() && k < |run.arrivals|
  {
    && Opens(run, k)
    && exists j | 0 <= j < k :: OpenedBy(run, q, j, k) && run.arrivals[k].now - run.arrivals[j].stamp > 1500
  }

  /** The frames from `q` on that are not too old for call `k`. */
  function YoungFrom(run: Run, q: nat, k: nat): Buffers
    requires run.Valid() && k < |run.arrivals|
  {
    var b := run.states[k].buffers;
    map p | p in b && q <= p && run.arrivals[k].now - b[p].timestamp <= 1500 :: b[p]
  }

  /** With this frame and the newer ones there is no room for another: they are
      64, or have 38 400 fragments, or the newcomer's bytes would make it more
      than 8 MiB. */
  predicate Crowded(run: Run, q: nat, k: nat)
    requires run.Valid() && k < |run.arrivals|
  {
    && Opens(run, k) && q in run.states[k].buffers
    && var b := YoungFrom(run, q, k);
       |b| >= 64 || HeldFragments(b) >= 38_400 || HeldBytes(b) + |run.arrivals[k].input.value.chunk| > 8_388_608
  }

  /** A newer frame comes out. */
  predicate Overtaken(run: Run, q: nat, k: nat)
    requires run.Valid() && k < |run.arrivals|
  {
    run.states[k].last < q < run.states[k + 1].last
  }

  lemma TooOldExactly(run: Run, q: nat, k: nat)
    requires run.Valid() && k < |run.arrivals| && q !in run.states[0].buffers
    ensures TooOld(run, q, k) <==> TimedOut(run.states[k], run.arrivals[k], q)
  {
    var r, a := run.states[k], run.arrivals[k];
    if TooOld(run, q, k) {
      var j :| 0 <= j < k && OpenedBy(run, q, j, k) && a.now - run.arrivals[j].stamp > 1500;
      HoldsFirstArrivals(run, q, j, k);
    }
    if TimedOut(r, a, q) {
      var j := SomeoneOpened(run, q, k);
      HoldsFirstArrivals(run, q, j, k);
    }
  }

  lemma CrowdedExactly(run: Run, q: nat, k: nat)
    requires run.Valid() && k < |run.arrivals| && !TimedOut(run.states[k], run.arrivals[k], q)
    ensures Crowded(run, q, k) <==> EvictedByLimit(run.states[k], run.arrivals[k], q)
  {
    var r, a := run.states[k], run.arrivals[k];
    if Opens(run, k) && q in r.buffers {
      var b := NotStale(r.buffers, a.now);
      assert FromOn(b, q) == YoungFrom(run, q, k);
      SurvivesExactly(b, |a.input.value.chunk|, q);
    }
  }

  /** The causes of loss are exhaustive. Whatever else the receiver is sent, a
      frame all of whose fragments arrive is handed out, unless at some call a
      newer frame came out first, or another frame was opened more than 1.5 s
      after this one, or there was no room for another beside this frame and the
      newer ones. */
  lemma LossCauses(s: Sent, run: Run)
    requires Meets(s, run)
    requires forall k | 0 <= k < |run.arrivals| ::
               !Overtaken(run, s.seqNo, k) && !TooOld(run, s.seqNo, k) && !Crowded(run, s.seqNo, k)
    ensures s.Complete(s.Got(run.arrivals)) ==> exists k | 0 <= k < |run.arrivals| :: DeliveredAt(s, run, k)
  {
    forall k | 0 <= k < |run.arrivals|
      ensures !LostAt(s, run, k)
    {
      TooOldExactly(run, s.seqNo, k);
      CrowdedExactly(run, s.seqNo, k);
    }
    HeldUnlessLost(s, run, |run.arrivals|);
    assert run.arrivals[..|run.arrivals|] == run.arrivals;
  }

  /** The packet is the last one missing of its frame. */
  predicate Completes(r: Receiver, a: Arrival, q: nat) {
    && a.input.Some? && a.input.value.seqNo == q && q in r.buffers
    && Brings(a, q, r.buffers[q].fragCount) && a.input.value.index !in r.buffers[q].fragments
    && |r.buffers[q].fragments| + 1 == r.buffers[q].fragCount
  }

  /** And exact: a call drops a buffered frame if and only if it completes it, or
      a newer one comes out, or a new frame finds it too old or in the way. */
  lemma DroppedExactly(run: Run, q: nat, k: nat)
    requires run.Valid() && k < |run.arrivals| && q !in run.states[0].buffers && q in run.states[k].buffers
    ensures q !in run.states[k + 1].buffers <==>
            || Completes(run.states[k], run.arrivals[k], q) || Overtaken(run, q, k)
            || TooOld(run, q, k) || Crowded(run, q, k)
  {
    var r, a, r' := run.states[k], run.arrivals[k], run.states[k + 1];
    assert Steps(run.key, r, a, r', run.outs[k]);
    TooOldExactly(run, q, k);
    if TooOld(run, q, k) {
      StepDropsExactly(run.key, r, a, r', run.outs[k], q);
    } else {
      CrowdedExactly(run, q, k);
      StepDropsExactly(run.key, r, a, r', run.outs[k], q);
    }
  }

  lemma OpeningLeaves(r: Receiver, a: Arrival, q: nat)
    requires r.Valid() && q in r.buffers && a.input.Some? && r.last < a.input.value.seqNo && q != a.input.value.seqNo
    ensures q in Opened(r.buffers, a.input.value, a.now, a.stamp) <==> !TimedOut(r, a, q) && !EvictedByLimit(r, a, q)
  {
    if a.input.value.seqNo !in r.buffers {
      AdmitSurvivors(NotStale(r.buffers, a.now), |a.input.value.chunk|);
    }
  }

  lemma StepIsStore(key: Bytes, r: Receiver, a: Arrival, r': Receiver, out: Option<Frame>)
    requires Steps(key, r, a, r', out) && a.input.Some? && r.last < a.input.value.seqNo
    ensures var f, b := a.input.value, Opened(r.buffers, a.input.value, a.now, a.stamp);
            f.seqNo in b && HasRoom(b[f.seqNo]) && r' == Store(b, r.last, f, key, a.log).0
  {
    OpenedFrames(r, a.input.value, a.now, a.stamp);
  }

  /** What storing a fragment of another frame leaves. */
  lemma StoreOthers(b: Buffers, last: int, f: Fragment, key: Bytes, log: Log, q: nat)
    requires f.seqNo in b && HasRoom(b[f.seqNo]) && f.Encodable() && f.Acceptable() && q != f.seqNo && last < q
    ensures var r' := Store(b, last, f, key, log).0;
            q in r'.buffers <==> q in b && !(r'.last > q)
  {
  }

  lemma OtherDropsExactly(key: Bytes, r: Receiver, a: Arrival, r': Receiver, out: Option<Frame>, q: nat)
    requires Steps(key, r, a, r', out) && q in r.buffers && a.input.Some? && r.last < a.input.value.seqNo
    requires q != a.input.value.seqNo
    ensures q !in r'.buffers <==> Superseded(r, r', q) || TimedOut(r, a, q) || EvictedByLimit(r, a, q)
  {
    StepIsStore(key, r, a, r', out);
    OpeningLeaves(r, a, q);
    StoreOthers(Opened(r.buffers, a.input.value, a.now, a.stamp), r.last, a.input.value, key, a.log, q);
  }

  lemma StoreItself(b: Buffers, last: int, f: Fragment, key: Bytes, log: Log)
    requires f.seqNo in b && HasRoom(b[f.seqNo]) && f.Encodable() && f.Acceptable() && last < f.seqNo
    ensures var r' := Store(b, last, f, key, log).0;
            var buf := b[f.seqNo];
            && r'.last <= f.seqNo
            && (f.seqNo !in r'.buffers <==>
                  buf.fragCount == f.count && f.index !in buf.fragments && |buf.fragments| + 1 == buf.fragCount)
  {
  }

  lemma OwnDropsExactly(key: Bytes, r: Receiver, a: Arrival, r': Receiver, out: Option<Frame>, q: nat)
    requires Steps(key, r, a, r', out) && q in r.buffers && a.input.Some? && q == a.input.value.seqNo
    ensures q !in r'.buffers <==> Completes(r, a, q)
    ensures r'.last <= q && !OpensFrame(r, a)
  {
    var f := a.input.value;
    OpenedFrames(r, f, a.now, a.stamp);
    StoreItself(Opened(r.buffers, f, a.now, a.stamp), r.last, f, key, a.log);
  }

  lemma StepDropsExactly(key: Bytes, r: Receiver, a: Arrival, r': Receiver, out: Option<Frame>, q: nat)
    requires Steps(key, r, a, r', out) && q in r.buffers
    ensures q !in r'.buffers <==>
            Completes(r, a, q) || Superseded(r, r', q) || TimedOut(r, a, q) || EvictedByLimit(r, a, q)
  {
    if a.input.Some? && r.last < a.input.value.seqNo {
      if q == a.input.value.seqNo {
        OwnDropsExactly(key, r, a, r', out, q);
      } else {
        OtherDropsExactly(key, r, a, r', out, q);
      }
    }
  }

  /** So a frame that was spoiled, and does not open when it is complete, is not
      lost for good: it is as if nothing of it had come, and its genuine packets
      can still bring it. */
  lemma SpoiledFrameStartsAnew(run: Run, q: nat, k: nat)
    requires run.Valid() && k < |run.arrivals| && q !in run.states[0].buffers && q in run.states[k].buffers
    requires Completes(run.states[k], run.arrivals[k], q) && run.outs[k] == None
    ensures q !in run.states[k + 1].buffers && run.states[k + 1].last == run.states[k].last < q
    ensures forall p | p in run.states[k].buffers && p != q ::
              p in run.states[k + 1].buffers && run.states[k + 1].buffers[p] == run.states[k].buffers[p]
  {
    var r, a, r' := run.states[k], run.arrivals[k], run.states[k + 1];
    assert Steps(run.key, r, a, r', run.outs[k]);
    DroppedExactly(run, q, k);
    TakeKeepsValid(r, a.input, run.key, a.log, a.now, a.stamp);
    assert q in r.buffers && r.buffers[q].Partial() && r.last < q;
    var f := a.input.value;
    forall p | p in r.buffers && p != q
      ensures p in r'.buffers && r'.buffers[p] == r.buffers[p]
    {
      StoreElsewhere(Opened(r.buffers, f, a.now, a.stamp), r.last, f, run.key, a.log, p);
    }
  }
}
