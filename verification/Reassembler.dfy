/** The client's fragment reassembler: what one packet does to it, as a
    function, and the class that does it in place. Clock readings are whole
    milliseconds. */
module Reassembler {
  import opened Wrappers
  import opened Wire
  import opened Sums
  import opened Aead

  const MAX_INCOMPLETE_FRAMES := 64
  const MAX_TOTAL_FRAGMENTS := MAX_INCOMPLETE_FRAMES * 600
  const MAX_TOTAL_BUFFER_BYTES := 8 * 1024 * 1024
  const STALE_AFTER_MS := 1500

  // -------------------------------------------------------------------------
  // State

  datatype Buffer = Buffer(fragments: map<nat, Bytes>, fragCount: nat, codecTag: Byte, flags: Byte,
                           nonce: Bytes, timestamp: int, byteCount: nat)
  {
    /** A buffer between two calls: some fragments are there, not all. */
    predicate Partial() {
      && (forall i | i in fragments :: i < fragCount)
      && 0 < |fragments| < fragCount
      && byteCount == ByteTotal(fragments)
    }

    function Add(index: nat, chunk: Bytes): Buffer {
      this.(fragments := fragments[index := chunk], byteCount := byteCount + |chunk|)
    }
  }

  type Buffers = map<nat, Buffer>

  datatype Frame = Frame(payload: Bytes, codecTag: Byte, keyframe: bool)

  datatype Receiver = Receiver(buffers: Buffers, last: int) {
    predicate Valid() {
      && |buffers| <= MAX_INCOMPLETE_FRAMES
      && forall k | k in buffers :: last < k && buffers[k].Partial()
    }
  }

  const INITIAL := Receiver(map[], -1)

  // -------------------------------------------------------------------------
  // Totals

  function ChunkSizes(fragments: map<nat, Bytes>): map<nat, nat> {
    map i | i in fragments :: |fragments[i]|
  }

  function FragmentCounts(b: Buffers): map<nat, nat> {
    map k | k in b :: |b[k].fragments|
  }

  function ByteCounts(b: Buffers): map<nat, nat> {
    map k | k in b :: b[k].byteCount
  }

  function ByteTotal(fragments: map<nat, Bytes>): nat {
    Sum(ChunkSizes(fragments))
  }

  function HeldFragments(b: Buffers): nat {
    Sum(FragmentCounts(b))
  }

  function HeldBytes(b: Buffers): nat {
    Sum(ByteCounts(b))
  }

  lemma ByteTotalAdd(m: map<nat, Bytes>, i: nat, c: Bytes)
    requires i !in m
    ensures ByteTotal(m[i := c]) == ByteTotal(m) + |c|
  {
    SumRemove(ChunkSizes(m[i := c]), i);
    assert ChunkSizes(m[i := c]) - {i} == ChunkSizes(m);
  }

  lemma CountsRemove(b: Buffers, k: nat)
    ensures FragmentCounts(b - {k}) == FragmentCounts(b) - {k}
    ensures ByteCounts(b - {k}) == ByteCounts(b) - {k}
  {
  }

  lemma HeldRemove(b: Buffers, k: nat)
    requires k in b
    ensures HeldFragments(b) == |b[k].fragments| + HeldFragments(b - {k})
    ensures HeldBytes(b) == b[k].byteCount + HeldBytes(b - {k})
  {
    SumRemove(FragmentCounts(b), k);
    SumRemove(ByteCounts(b), k);
    CountsRemove(b, k);
  }

  // -------------------------------------------------------------------------
  // Admission of a new frame

  /** The three limits, all at once, for a newcomer of `n` bytes. */
  predicate Fits(b: Buffers, n: nat) {
    && |b| < MAX_INCOMPLETE_FRAMES
    && HeldFragments(b) < MAX_TOTAL_FRAGMENTS
    && HeldBytes(b) + n <= MAX_TOTAL_BUFFER_BYTES
  }

  function NotStale(b: Buffers, now: int): Buffers {
    map k | k in b && now - b[k].timestamp <= STALE_AFTER_MS :: b[k]
  }

  function EvictOldest(b: Buffers): (r: Buffers)
    ensures b != map[] ==> |r| < |b|
  {
    if b == map[] then b
    else
      assert b.Keys != {};
      var rest := b - {Min(b.Keys)};
      assert rest.Keys == b.Keys - {Min(b.Keys)};
      rest
  }

  /** Evict the oldest frame until the newcomer fits. */
  function Admit(b: Buffers, n: nat): (r: Buffers)
    decreases |b|
  {
    if b == map[] || Fits(b, n) then b else Admit(EvictOldest(b), n)
  }

  /** One turn of an eviction loop: it leads to the same survivors, and no
      total grows. */
  lemma EvictStep(b: Buffers, n: nat)
    requires b != map[]
    ensures |EvictOldest(b)| < |b|
    ensures HeldFragments(EvictOldest(b)) <= HeldFragments(b)
    ensures HeldBytes(EvictOldest(b)) <= HeldBytes(b)
    ensures !Fits(b, n) ==> Admit(b, n) == Admit(EvictOldest(b), n)
  {
    assert b.Keys != {};
    HeldRemove(b, Min(b.Keys));
  }

  /** `s` is `b` from some sequence number on. */
  predicate IsSuffix(s: Buffers, b: Buffers) {
    && (forall k | k in s :: k in b && s[k] == b[k])
    && (forall k, j | k in s && j in b && k <= j :: j in s)
  }

  lemma EvictOldestIsSuffix(b: Buffers)
    ensures IsSuffix(EvictOldest(b), b)
  {
  }

  /** A proper suffix lacks the oldest frame. */
  lemma SuffixWithoutOldest(s: Buffers, b: Buffers)
    requires IsSuffix(s, b) && s != b
    ensures IsSuffix(s, EvictOldest(b))
  {
    if b != map[] {
      assert b.Keys != {};
      if Min(b.Keys) in s {
        assert forall k | k in b :: k in s;
        assert false;
      }
    }
  }

  lemma {:induction false} AdmitSurvivors(b: Buffers, n: nat)
    requires n <= MAX_TOTAL_BUFFER_BYTES
    ensures IsSuffix(Admit(b, n), b) && Fits(Admit(b, n), n)
    decreases |b|
  {
    if b != map[] && !Fits(b, n) {
      AdmitSurvivors(EvictOldest(b), n);
      EvictOldestIsSuffix(b);
    }
  }

  lemma {:induction false} AdmitKeeps(b: Buffers, n: nat, s: Buffers)
    requires IsSuffix(s, b) && Fits(s, n)
    ensures IsSuffix(s, Admit(b, n))
    decreases |b|
  {
    if b != map[] && !Fits(b, n) {
      SuffixWithoutOldest(s, b);
      AdmitKeeps(EvictOldest(b), n, s);
    }
  }

  /** What survives is the largest suffix of the buffers that fits: it is a
      suffix, it fits, and every suffix that fits lies within it. */
  lemma AdmitIsLargestSuffix(b: Buffers, n: nat)
    requires n <= MAX_TOTAL_BUFFER_BYTES
    ensures IsSuffix(Admit(b, n), b) && Fits(Admit(b, n), n)
    ensures forall s | IsSuffix(s, b) && Fits(s, n) :: IsSuffix(s, Admit(b, n))
  {
    AdmitSurvivors(b, n);
    forall s | IsSuffix(s, b) && Fits(s, n)
      ensures IsSuffix(s, Admit(b, n))
    {
      AdmitKeeps(b, n, s);
    }
  }

  /** The buffers from frame `q` on. */
  function FromOn(b: Buffers, q: nat): Buffers {
    map k | k in b && q <= k :: b[k]
  }

  lemma {:induction false} FewerHoldLess(b: Buffers, fewer: Buffers)
    requires fewer.Keys <= b.Keys && forall k | k in fewer :: fewer[k] == b[k]
    ensures |fewer| <= |b| && HeldFragments(fewer) <= HeldFragments(b) && HeldBytes(fewer) <= HeldBytes(b)
    decreases |b|
  {
    SubsetSize(fewer.Keys, b.Keys);
    if fewer != b {
      var k :| k in b && k !in fewer;
      assert (b - {k}).Keys == b.Keys - {k};
      FewerHoldLess(b - {k}, fewer);
      HeldRemove(b, k);
    }
  }

  /** A frame survives the admission of a newcomer of `n` bytes exactly when it
      and all the newer ones leave room for it. */
  lemma SurvivesExactly(b: Buffers, n: nat, q: nat)
    requires n <= MAX_TOTAL_BUFFER_BYTES && q in b
    ensures q in Admit(b, n) <==> Fits(FromOn(b, q), n)
  {
    AdmitIsLargestSuffix(b, n);
    var s := FromOn(b, q);
    assert IsSuffix(s, b);
    if q in Admit(b, n) {
      FewerHoldLess(Admit(b, n), s);
    }
  }

  // -------------------------------------------------------------------------
  // One packet

  function Join(fragments: map<nat, Bytes>, n: nat): Bytes
    requires forall i | 0 <= i < n :: i in fragments
  {
    if n == 0 then [] else Join(fragments, n - 1) + fragments[n - 1]
  }

  function NewBuffer(f: Fragment, stamp: int): Buffer {
    Buffer(map[], f.count, f.codecTag, f.flags, f.nonce, stamp, 0)
  }

  /** The buffers once there is one for the fragment's frame. */
  function Opened(b: Buffers, f: Fragment, now: int, stamp: int): Buffers {
    if f.seqNo in b then b
    else Admit(NotStale(b, now), |f.chunk|)[f.seqNo := NewBuffer(f, stamp)]
  }

  /** A buffer the fragment can go to: not full, and no index out of range. */
  predicate HasRoom(buf: Buffer) {
    (forall i | i in buf.fragments :: i < buf.fragCount) && |buf.fragments| < buf.fragCount
  }

  lemma CompleteHasAll(buf: Buffer, f: Fragment)
    requires HasRoom(buf) && f.index !in buf.fragments && buf.fragCount == f.count && f.Acceptable()
    ensures var full := buf.Add(f.index, f.chunk);
            |full.fragments| == |buf.fragments| + 1 &&
            (|full.fragments| == full.fragCount ==> full.fragments.Keys == Below(full.fragCount))
  {
    var full := buf.Add(f.index, f.chunk);
    assert full.fragments.Keys == buf.fragments.Keys + {f.index};
    if |full.fragments| == full.fragCount {
      AllIndices(full.fragments.Keys, full.fragCount);
    }
  }

  /** The last missing fragment has come: join, open, and deliver or give up. */
  function Deliver(b: Buffers, last: int, q: nat, full: Buffer, key: Bytes, log: Log): (Receiver, Option<Frame>)
    requires q < Pow256(8) && full.fragments.Keys == Below(full.fragCount)
  {
    match Open(log, key, full.nonce, Join(full.fragments, full.fragCount), Pack(q, 8))
    case Some(payload) =>
      (Receiver(map k | k in b && k > q :: b[k], q), Some(Frame(payload, full.codecTag, full.flags % 2 == 1)))
    case None => (Receiver(b - {q}, last), None)
  }

  function Store(b: Buffers, last: int, f: Fragment, key: Bytes, log: Log): (Receiver, Option<Frame>)
    requires f.seqNo in b && HasRoom(b[f.seqNo]) && f.Encodable() && f.Acceptable()
  {
    var buf := b[f.seqNo];
    if f.index in buf.fragments || buf.fragCount != f.count then (Receiver(b, last), None)
    else
      var full := buf.Add(f.index, f.chunk);
      CompleteHasAll(buf, f);
      if |full.fragments| != full.fragCount then (Receiver(b[f.seqNo := full], last), None)
      else Deliver(b, last, f.seqNo, full, key, log)
  }

  function Take(r: Receiver, input: Parsed, key: Bytes, log: Log, now: int, stamp: int): (Receiver, Option<Frame>)
    requires r.Valid()
  {
    match input
    case None => (r, None)
    case Some(f) =>
      if f.seqNo <= r.last then (r, None)
      else Store(Opened(r.buffers, f, now, stamp), r.last, f, key, log)
  }

  /** One UDP packet. */
  function Receive(r: Receiver, packet: Bytes, key: Bytes, log: Log, now: int, stamp: int): (Receiver, Option<Frame>)
    requires r.Valid()
  {
    Take(r, Decode(packet), key, log, now, stamp)
  }

  // -------------------------------------------------------------------------
  // What every packet keeps

  lemma OpenedFrames(r: Receiver, f: Fragment, now: int, stamp: int)
    requires r.Valid() && r.last < f.seqNo && f.Acceptable()
    ensures var b := Opened(r.buffers, f, now, stamp);
            && |b| <= MAX_INCOMPLETE_FRAMES && f.seqNo in b
            && (forall k | k in b && k != f.seqNo :: k in r.buffers && b[k] == r.buffers[k])
            && b[f.seqNo] == if f.seqNo in r.buffers then r.buffers[f.seqNo] else NewBuffer(f, stamp)
  {
    if f.seqNo !in r.buffers {
      AdmitSurvivors(NotStale(r.buffers, now), |f.chunk|);
    }
  }

  /** The buffers as they are when the fragment is about to be stored. */
  predicate ReadyFor(b: Buffers, last: int, f: Fragment) {
    && |b| <= MAX_INCOMPLETE_FRAMES
    && (forall k | k in b && k != f.seqNo :: last < k && b[k].Partial())
    && last < f.seqNo && f.seqNo in b
    && (b[f.seqNo].Partial() || b[f.seqNo] == NewBuffer(f, b[f.seqNo].timestamp))
  }

  lemma OpenedIsReady(r: Receiver, f: Fragment, now: int, stamp: int)
    requires r.Valid() && r.last < f.seqNo && f.Acceptable()
    ensures ReadyFor(Opened(r.buffers, f, now, stamp), r.last, f)
  {
    OpenedFrames(r, f, now, stamp);
  }

  lemma DeliverKeepsValid(b: Buffers, last: int, f: Fragment, full: Buffer, key: Bytes, log: Log)
    requires f.Encodable() && ReadyFor(b, last, f) && full.fragments.Keys == Below(full.fragCount)
    ensures var (r', out) := Deliver(b, last, f.seqNo, full, key, log);
            && r'.Valid()
            && last <= r'.last && (out.Some? <==> last < r'.last)
  {
    var (r', out) := Deliver(b, last, f.seqNo, full, key, log);
    SubsetSize(r'.buffers.Keys, b.Keys);
  }

  lemma AddKeepsPartial(buf: Buffer, f: Fragment)
    requires buf.Partial() || buf == NewBuffer(f, buf.timestamp)
    requires f.Acceptable() && buf.fragCount == f.count && f.index !in buf.fragments
    ensures HasRoom(buf)
    ensures var full := buf.Add(f.index, f.chunk);
            |full.fragments| != full.fragCount ==> full.Partial()
  {
    CompleteHasAll(buf, f);
    ByteTotalAdd(buf.fragments, f.index, f.chunk);
  }

  lemma StoreKeepsValid(b: Buffers, last: int, f: Fragment, key: Bytes, log: Log)
    requires f.Encodable() && f.Acceptable() && ReadyFor(b, last, f)
    ensures var (r', out) := Store(b, last, f, key, log);
            && r'.Valid()
            && last <= r'.last && (out.Some? <==> last < r'.last)
  {
    var buf := b[f.seqNo];
    if f.index !in buf.fragments && buf.fragCount == f.count {
      var full := buf.Add(f.index, f.chunk);
      CompleteHasAll(buf, f);
      if |full.fragments| == full.fragCount {
        DeliverKeepsValid(b, last, f, full, key, log);
      } else {
        AddKeepsPartial(buf, f);
        assert b[f.seqNo := full].Keys == b.Keys;
      }
    }
  }

  lemma TakeKeepsValid(r: Receiver, input: Parsed, key: Bytes, log: Log, now: int, stamp: int)
    requires r.Valid()
    ensures var (r', out) := Take(r, input, key, log, now, stamp);
            && r'.Valid()
            && r.last <= r'.last && (out.Some? <==> r.last < r'.last)
  {
    if input.Some? && r.last < input.value.seqNo {
      OpenedIsReady(r, input.value, now, stamp);
      StoreKeepsValid(Opened(r.buffers, input.value, now, stamp), r.last, input.value, key, log);
    }
  }

  /** The invariant survives every packet, well-formed or not, whatever its
      fields and whatever the clock says; and the last delivered sequence
      number never goes back, and moves exactly when a frame comes out. */
  lemma ReceiveKeepsValid(r: Receiver, packet: Bytes, key: Bytes, log: Log, now: int, stamp: int)
    requires r.Valid()
    ensures var (r', out) := Receive(r, packet, key, log, now, stamp);
            && r'.Valid()
            && r.last <= r'.last && (out.Some? <==> r.last < r'.last)
  {
    TakeKeepsValid(r, Decode(packet), key, log, now, stamp);
  }

  lemma StoredWasSealed(b: Buffers, last: int, f: Fragment, key: Bytes, log: Log) returns (sealed: Sealed)
    requires f.seqNo in b && HasRoom(b[f.seqNo]) && f.Encodable() && f.Acceptable()
    requires Store(b, last, f, key, log).1.Some?
    ensures Store(b, last, f, key, log).0.last == f.seqNo
    ensures sealed in log && log[sealed] == Store(b, last, f, key, log).1.value.payload
    ensures sealed.key == key && sealed.aad == Pack(f.seqNo, 8)
  {
    var buf := b[f.seqNo];
    CompleteHasAll(buf, f);
    var full := buf.Add(f.index, f.chunk);
    sealed := Sealed(key, full.nonce, Pack(f.seqNo, 8), Join(full.fragments, full.fragCount));
  }

  /** What comes out had been sealed under the receiver's key with exactly the
      delivered sequence number as associated data. */
  lemma OutputWasSealed(r: Receiver, packet: Bytes, key: Bytes, log: Log, now: int, stamp: int)
    returns (sealed: Sealed)
    requires r.Valid() && Receive(r, packet, key, log, now, stamp).1.Some?
    ensures var (r', out) := Receive(r, packet, key, log, now, stamp);
            && 0 <= r'.last < Pow256(8)
            && sealed in log && log[sealed] == out.value.payload
            && sealed.key == key && sealed.aad == Pack(r'.last, 8)
  {
    var f := Decode(packet).value;
    OpenedFrames(r, f, now, stamp);
    sealed := StoredWasSealed(Opened(r.buffers, f, now, stamp), r.last, f, key, log);
  }

  // -------------------------------------------------------------------------
  // The reassembler, in place

  class FrameReassembler {
    var buffers: Buffers
    var lastSuccessfulSeq: int

    ghost function State(): Receiver
      reads this
    {
      Receiver(buffers, lastSuccessfulSeq)
    }

    constructor ()
      ensures State() == INITIAL && State().Valid()
    {
      buffers := map[];
      lastSuccessfulSeq := -1;
    }

    method TotalFragments() returns (n: nat)
      ensures n == HeldFragments(buffers)
    {
      n := 0;
      var todo := buffers;
      while todo != map[]
        invariant n + HeldFragments(todo) == HeldFragments(buffers)
        decreases |todo|
      {
        assert todo.Keys != {};
        var k :| k in todo;
        HeldRemove(todo, k);
        n := n + |todo[k].fragments|;
        todo := todo - {k};
      }
    }

    method TotalBytes() returns (n: nat)
      ensures n == HeldBytes(buffers)
    {
      n := 0;
      var todo := buffers;
      while todo != map[]
        invariant n + HeldBytes(todo) == HeldBytes(buffers)
        decreases |todo|
      {
        assert todo.Keys != {};
        var k :| k in todo;
        HeldRemove(todo, k);
        n := n + todo[k].byteCount;
        todo := todo - {k};
      }
    }

    method EvictOldestBuffer()
      modifies this`buffers
      ensures buffers == EvictOldest(old(buffers))
    {
      if buffers == map[] {
        return;
      }
      assert buffers.Keys != {};
      buffers := buffers - {Min(buffers.Keys)};
    }

    method CleanupStaleBuffers(now: int)
      modifies this`buffers
      ensures buffers == NotStale(old(buffers), now)
    {
      var staleKeys := set k | k in buffers && now - buffers[k].timestamp > STALE_AFTER_MS;
      while staleKeys != {}
        invariant staleKeys <= buffers.Keys <= old(buffers).Keys
        invariant forall k | k in buffers :: buffers[k] == old(buffers)[k]
        invariant forall k | k in old(buffers) && now - old(buffers)[k].timestamp <= STALE_AFTER_MS :: k in buffers
        invariant forall k | k in buffers && now - buffers[k].timestamp > STALE_AFTER_MS :: k in staleKeys
        invariant forall k | k in staleKeys :: now - old(buffers)[k].timestamp > STALE_AFTER_MS
        decreases staleKeys
      {
        var k :| k in staleKeys;
        buffers := buffers - {k};
        staleKeys := staleKeys - {k};
      }
    }

    /** Evict until there is room for one more frame ... */
    method LimitFrames(n: nat)
      modifies this`buffers
      ensures |buffers| < MAX_INCOMPLETE_FRAMES && Admit(buffers, n) == Admit(old(buffers), n)
    {
      while |buffers| >= MAX_INCOMPLETE_FRAMES
        invariant Admit(buffers, n) == Admit(old(buffers), n)
        decreases |buffers|
      {
        EvictStep(buffers, n);
        EvictOldestBuffer();
      }
    }

    /** ... for one more fragment ... */
    method LimitFragments(n: nat)
      requires |buffers| < MAX_INCOMPLETE_FRAMES
      modifies this`buffers
      ensures |buffers| < MAX_INCOMPLETE_FRAMES && HeldFragments(buffers) < MAX_TOTAL_FRAGMENTS
      ensures Admit(buffers, n) == Admit(old(buffers), n)
    {
      var fragments := TotalFragments();
      while fragments >= MAX_TOTAL_FRAGMENTS
        invariant fragments == HeldFragments(buffers)
        invariant |buffers| < MAX_INCOMPLETE_FRAMES
        invariant Admit(buffers, n) == Admit(old(buffers), n)
        decreases |buffers|
      {
        assert buffers != map[];
        EvictStep(buffers, n);
        EvictOldestBuffer();
        fragments := TotalFragments();
        if buffers == map[] {
          break;
        }
      }
    }

    /** ... and for the newcomer's bytes. */
    method LimitBytes(n: nat)
      requires n <= MAX_TOTAL_BUFFER_BYTES
      requires |buffers| < MAX_INCOMPLETE_FRAMES && HeldFragments(buffers) < MAX_TOTAL_FRAGMENTS
      modifies this`buffers
      ensures buffers == Admit(old(buffers), n)
    {
      var bytes := TotalBytes();
      while bytes + n > MAX_TOTAL_BUFFER_BYTES
        invariant bytes == HeldBytes(buffers)
        invariant |buffers| < MAX_INCOMPLETE_FRAMES && HeldFragments(buffers) < MAX_TOTAL_FRAGMENTS
        invariant Admit(buffers, n) == Admit(old(buffers), n)
        decreases |buffers|
      {
        assert buffers != map[];
        EvictStep(buffers, n);
        EvictOldestBuffer();
        bytes := TotalBytes();
        if buffers == map[] {
          break;
        }
      }
    }

    /** The cleanup and the three eviction loops that make room for a newcomer
        of `n` bytes. */
    method MakeRoom(n: nat, now: int)
      requires n <= MAX_TOTAL_BUFFER_BYTES
      modifies this`buffers
      ensures buffers == Admit(NotStale(old(buffers), now), n)
    {
      CleanupStaleBuffers(now);
      LimitFrames(n);
      LimitFragments(n);
      LimitBytes(n);
    }

    /** The fragments in order of their indices. */
    method JoinAll(buf: Buffer) returns (ciphertext: Bytes)
      requires buf.fragments.Keys == Below(buf.fragCount)
      ensures ciphertext == Join(buf.fragments, buf.fragCount)
    {
      ciphertext := [];
      for i := 0 to buf.fragCount
        invariant ciphertext == Join(buf.fragments, i)
      {
        ciphertext := ciphertext + buf.fragments[i];
      }
    }

    /** A fragment whose frame has a buffer. */
    method StoreFragment(f: Fragment, sessionKey: Bytes, log: Log)
      returns (out: Option<Frame>)
      requires f.seqNo in buffers && HasRoom(buffers[f.seqNo]) && f.Encodable() && f.Acceptable()
      modifies this
      ensures (State(), out) == Store(old(buffers), old(lastSuccessfulSeq), f, sessionKey, log)
    {
      var buf := buffers[f.seqNo];
      if f.index in buf.fragments {
        return None;
      }
      if buf.fragCount != f.count {
        return None;
      }
      CompleteHasAll(buf, f);
      buf := buf.Add(f.index, f.chunk);
      buffers := buffers[f.seqNo := buf];
      if |buf.fragments| != buf.fragCount {
        return None;
      }

      var ciphertext := JoinAll(buf);
      var plain := Open(log, sessionKey, buf.nonce, ciphertext, Pack(f.seqNo, 8));
      if plain.None? {
        buffers := buffers - {f.seqNo};
        assert buffers == old(buffers) - {f.seqNo};
        return None;
      }
      lastSuccessfulSeq := f.seqNo;
      buffers := map k | k in buffers && k > f.seqNo :: buffers[k];
      assert buffers == map k | k in old(buffers) && k > f.seqNo :: old(buffers)[k];
      return Some(Frame(plain.value, buf.codecTag, buf.flags % 2 == 1));
    }

    /** One UDP packet: exactly the step `Receive`, and the invariant after it. */
    method ProcessPacket(packet: Bytes, sessionKey: Bytes, log: Log, now: int, stamp: int)
      returns (out: Option<Frame>)
      requires State().Valid()
      modifies this
      ensures (State(), out) == Receive(old(State()), packet, sessionKey, log, now, stamp)
      ensures State().Valid()
    {
      ReceiveKeepsValid(State(), packet, sessionKey, log, now, stamp);
      var parsed := Decode(packet);
      if parsed.None? {
        return None;
      }
      var f := parsed.value;
      if f.seqNo <= lastSuccessfulSeq {
        return None;
      }
      OpenedFrames(State(), f, now, stamp);
      if f.seqNo !in buffers {
        MakeRoom(|f.chunk|, now);
        buffers := buffers[f.seqNo := NewBuffer(f, stamp)];
      }
      out := StoreFragment(f, sessionKey, log);
    }
  }
}
