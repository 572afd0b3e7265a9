/** The life of an entry in the table of streaming clients: what makes it, where
    its frames go, what its counters count, and what removes it. Stated over the
    steps of a run, in plain numbers and fields. */
module Clients {
  import opened AuthModel
  import opened Heartbeat
  import opened StreamModel
  import opened Server
  import ClientTable

  // -------------------------------------------------------------------------
  // What the turns of a client come to

  function SentIn(turns: seq<Turn>): nat {
    if turns == [] then 0
    else SentIn(turns[..|turns| - 1]) + if turns[|turns| - 1] == Sent then 1 else 0
  }

  /** The turns in which something was tried. */
  function Played(turns: seq<Turn>): seq<Turn> {
    if turns == [] then []
    else Played(turns[..|turns| - 1]) + if turns[|turns| - 1] == Skipped then [] else [turns[|turns| - 1]]
  }

  /** The failures since the last frame that was sent. */
  predicate FailedLast(turns: seq<Turn>, n: nat) {
    var p := Played(turns);
    n <= |p| && (forall i | |p| - n <= i < |p| :: p[i] == Failed) && (n < |p| ==> p[|p| - n - 1] == Sent)
  }

  /** The last five that were tried all failed. */
  predicate FiveFailures(turns: seq<Turn>) {
    var p := Played(turns);
    |p| >= 5 && forall i | |p| - 5 <= i < |p| :: p[i] == Failed
  }

  lemma FiveOrMore(turns: seq<Turn>, n: nat)
    requires FailedLast(turns, n)
    ensures FiveFailures(turns) <==> n >= 5
  {
    var p := Played(turns);
    if n < 5 <= |p| {
      assert p[|p| - n - 1] == Sent;
    }
  }

  /** One more turn. */
  lemma TurnCounts(turns: seq<Turn>, turn: Turn, n: nat)
    requires FailedLast(turns, n)
    ensures FailedLast(turns + [turn], if turn == Sent then 0 else if turn == Failed then n + 1 else n)
    ensures SentIn(turns + [turn]) == SentIn(turns) + if turn == Sent then 1 else 0
  {
    assert (turns + [turn])[..|turns|] == turns;
    assert turn == Skipped ==> Played(turns) + [] == Played(turns);
  }

  // -------------------------------------------------------------------------
  // One step

  /** A heartbeat of this name passes every check and has its nonce taken. */
  predicate Heard(g: Setting, w: World, e: Event, at: int, fp: Fp) {
    && e.Datagram? && Parse(e.data).Some? && Parse(e.data).value.name == fp
    && NonceTaken(OnHeartbeat(g.c, w.auth, w.table, e.data, e.ip, e.port, at, e.udpAllowed).2)
  }

  predicate Enters(g: Setting, w: World, e: Event, at: int, fp: Fp) {
    Heard(g, w, e, at, fp) && fp !in w.table && |w.table| < 16
  }

  /** All that removes an entry. */
  predicate Leaves(w: World, e: Event, at: int, fp: Fp)
    requires fp in w.table
  {
    match e
    case DisconnectCmd(name) => name == fp
    case CleanupTick => at - w.table[fp].lastHb > 30_000
    case BroadcastRound(turns) => fp in turns && turns[fp] == Failed && w.table[fp].sendErrors >= 4
    case _ => false
  }

  /** The name it is shown under. */
  predicate Named(s: Session, c: Client) {
    c.deviceName == if s.deviceName == "" then "Unknown" else s.deviceName
  }

  /** The entry that a first heartbeat makes. */
  predicate Entered(s: Session, ip: string, port: nat, at: int, c: Client) {
    && c.ip == ip && c.port == port && c.key == s.key && Named(s, c)
    && c.connectedAt == at && c.lastHb == at && c.framesSent == 0 && c.seqNo == 0 && c.sendErrors == 0
  }

  /** Later ones move it to where they come from and change nothing else. */
  predicate Moved(s: Session, ip: string, port: nat, at: int, c: Client, c': Client) {
    && c'.ip == ip && c'.port == port && c'.key == s.key && c'.lastHb == at
    && c'.deviceName == c.deviceName && c'.connectedAt == c.connectedAt
    && c'.framesSent == c.framesSent && c'.seqNo == c.seqNo && c'.sendErrors == c.sendErrors
  }

  /** A turn changes only the counters. */
  predicate TurnTaken(turn: Turn, c: Client, c': Client) {
    && c'.ip == c.ip && c'.port == c.port && c'.key == c.key && c'.lastHb == c.lastHb
    && c'.deviceName == c.deviceName && c'.connectedAt == c.connectedAt
    && c'.framesSent == c.framesSent + (if turn == Sent then 1 else 0)
    && c'.seqNo == c.seqNo + (if turn == Sent then 1 else 0)
    && c'.sendErrors == if turn == Sent then 0 else if turn == Failed then c.sendErrors + 1 else c.sendErrors
  }

  function TurnIn(e: Event, fp: Fp): Turn {
    if e.BroadcastRound? && fp in e.turns then e.turns[fp] else Skipped
  }

  /** What a registration leaves. */
  predicate Registered(t: Table, fp: Fp, s: Session, ip: string, port: nat, at: int, t': Table, v: Verdict) {
    && (fp in t' <==> fp in t || |t| < 16)
    && v == (if fp in t' then Streaming else TableFull)
    && (fp in t' && fp in t ==> Moved(s, ip, port, at, t[fp], t'[fp]))
    && (fp in t' && fp !in t ==> Entered(s, ip, port, at, t'[fp]))
  }

  lemma RegistersExactly(t: Table, fp: Fp, s: Session, ip: string, port: nat, at: int)
    ensures Registered(t, fp, s, ip, port, at, Register(t, fp, s, ip, port, at).0, Register(t, fp, s, ip, port, at).1)
  {
  }

  /** A heartbeat that is heard leaves an entry with its address and port, under
      the session's key, if there is one already or fewer than sixteen others. */
  lemma HeardEntry(g: Setting, w: World, e: Event, at: int, fp: Fp)
    requires Heard(g, w, e, at, fp)
    ensures fp in w.auth.sessions
    ensures Registered(w.table, fp, w.auth.sessions[fp], e.ip, e.port, at, TableAfter(g, w, e, at),
                       OnHeartbeat(g.c, w.auth, w.table, e.data, e.ip, e.port, at, e.udpAllowed).2)
  {
    BeatEffect(g.c, w.auth, w.table, Parse(e.data).value, e.ip, e.port, at);
    var (a', t', v) := OnBeat(g.c, w.auth, w.table, Parse(e.data).value, e.ip, e.port, at);
    RegistersExactly(w.table, fp, a'.sessions[fp], e.ip, e.port, at);
  }

  lemma NotHeardKept(g: Setting, w: World, e: Event, at: int, fp: Fp)
    requires e.Datagram? && !Heard(g, w, e, at, fp)
    ensures var t' := TableAfter(g, w, e, at);
            (fp in t' <==> fp in w.table) && (fp in t' ==> t'[fp] == w.table[fp])
  {
    if e.udpAllowed && Parse(e.data).Some? {
      BeatEffect(g.c, w.auth, w.table, Parse(e.data).value, e.ip, e.port, at);
    }
  }

  lemma LeavesExactly(g: Setting, w: World, e: Event, at: int, fp: Fp)
    requires !e.Datagram?
    ensures var t' := TableAfter(g, w, e, at);
            && (fp in t' <==> fp in w.table && !Leaves(w, e, at, fp))
            && (fp in t' ==> TurnTaken(TurnIn(e, fp), w.table[fp], t'[fp]))
  {
  }

  /** Removing a client takes its session with its entry, and nothing from anyone
      else; if it was not in the table, its session stays. */
  lemma RemovedExactly(a: Auth, t: Table, fp: Fp, other: Fp)
    ensures var (a', t') := RemoveClient(a, t, fp);
            && (other in t' <==> other in t && other != fp)
            && (other in a'.sessions <==> other in a.sessions && !(other == fp && fp in t))
            && (other in t' ==> t'[other] == t[other])
            && (other in a'.sessions ==> a'.sessions[other] == a.sessions[other])
            && a' == a.(sessions := a'.sessions)
  {
  }

  // -------------------------------------------------------------------------
  // Runs

  lemma HeardIsRecorded(g: Setting, w: World, e: Event, at: int, fp: Fp)
    ensures Heard(g, w, e, at, fp) <==> Accepted(g, w, e, at) != [] && Accepted(g, w, e, at)[0].beat.name == fp
  {
  }

  /** In step `i` a heartbeat of this name was accepted. */
  predicate HeardAt(worlds: seq<World>, i: nat, fp: Fp)
    requires i + 1 < |worlds|
  {
    var n := |worlds[i].accepts|;
    n < |worlds[i + 1].accepts| && worlds[i + 1].accepts[n].beat.name == fp
  }

  predicate EntersAt(worlds: seq<World>, i: nat, fp: Fp)
    requires i + 1 < |worlds|
  {
    HeardAt(worlds, i, fp) && fp !in worlds[i].table && |worlds[i].table| < 16
  }

  predicate LeavesAt(steps: seq<Step>, worlds: seq<World>, i: nat, fp: Fp)
    requires i < |steps| && i < |worlds| && fp in worlds[i].table
  {
    Leaves(worlds[i], steps[i].event, steps[i].at, fp)
  }

  /** The client has been in the table since step `j`, whose heartbeat entered it. */
  predicate InSince(steps: seq<Step>, worlds: seq<World>, j: nat, k: nat, fp: Fp)
    requires |worlds| == |steps| + 1
  {
    && j < k < |worlds| && EntersAt(worlds, j, fp)
    && forall i | j < i < k :: fp in worlds[i].table && !LeavesAt(steps, worlds, i, fp)
  }

  predicate LastHeard(worlds: seq<World>, m: nat, k: nat, fp: Fp) {
    && m < k < |worlds| && HeardAt(worlds, m, fp)
    && forall i | m < i < k :: !HeardAt(worlds, i, fp)
  }

  /** The client's turns in the rounds after step `j` and before step `k`. */
  function TurnsIn(steps: seq<Step>, j: nat, k: nat, fp: Fp): seq<Turn>
    requires j < k <= |steps|
    decreases k
  {
    if k == j + 1 then [] else TurnsIn(steps, j, k - 1, fp) + [TurnIn(steps[k - 1].event, fp)]
  }

  /** What the turns since it entered come to. */
  predicate Counts(turns: seq<Turn>, c: Client) {
    c.framesSent == c.seqNo == SentIn(turns) && FailedLast(turns, c.sendErrors)
  }

  /** What is known of an entry from the steps since it was made. */
  predicate Told(steps: seq<Step>, worlds: seq<World>, j: nat, m: nat, k: nat, fp: Fp, c: Client)
    requires |worlds| == |steps| + 1
  {
    && InSince(steps, worlds, j, k, fp) && j <= m && LastHeard(worlds, m, k, fp)
    && steps[m].event.Datagram?
    && fp in worlds[j].auth.sessions && fp in worlds[m].auth.sessions
    && c.connectedAt == steps[j].at && Named(worlds[j].auth.sessions[fp], c)
    && c.ip == steps[m].event.ip && c.port == steps[m].event.port && c.lastHb == steps[m].at
    && c.key == worlds[m].auth.sessions[fp].key
    && Counts(TurnsIn(steps, j, k, fp), c)
  }

  /** What step `k` does to a device's entry. */
  predicate Progresses(steps: seq<Step>, worlds: seq<World>, k: nat, fp: Fp)
    requires |worlds| == |steps| + 1 && k < |steps|
  {
    var before, after, e, at := worlds[k].table, worlds[k + 1].table, steps[k].event, steps[k].at;
    && (fp in after <==> EntersAt(worlds, k, fp) || (fp in before && !LeavesAt(steps, worlds, k, fp)))
    && (if HeardAt(worlds, k, fp)
        then
          && fp in worlds[k].auth.sessions && e.Datagram?
          && (fp in before ==>
                fp in after && Moved(worlds[k].auth.sessions[fp], e.ip, e.port, at, before[fp], after[fp]))
          && (fp !in before && fp in after ==> Entered(worlds[k].auth.sessions[fp], e.ip, e.port, at, after[fp]))
        else fp in after ==> TurnTaken(TurnIn(e, fp), before[fp], after[fp]))
  }

  lemma StepProgresses(g: Setting, steps: seq<Step>, worlds: seq<World>, k: nat, fp: Fp)
    requires IsRun(g, steps, worlds) && k < |steps|
    ensures Progresses(steps, worlds, k, fp)
  {
    var w, s := worlds[k], steps[k];
    StepInto(g, steps, worlds, k + 1);
    HeardIsRecorded(g, w, s.event, s.at, fp);
    if Heard(g, w, s.event, s.at, fp) {
      HeardEntry(g, w, s.event, s.at, fp);
    } else if s.event.Datagram? {
      NotHeardKept(g, w, s.event, s.at, fp);
    } else {
      LeavesExactly(g, w, s.event, s.at, fp);
    }
  }

  predicate Progress(steps: seq<Step>, worlds: seq<World>, fp: Fp) {
    && |worlds| == |steps| + 1 && fp !in worlds[0].table
    && forall k | 0 <= k < |steps| :: Progresses(steps, worlds, k, fp)
  }

  lemma RunProgresses(g: Setting, steps: seq<Step>, worlds: seq<World>, fp: Fp)
    requires IsRun(g, steps, worlds)
    ensures Progress(steps, worlds, fp)
  {
    forall k | 0 <= k < |steps|
      ensures Progresses(steps, worlds, k, fp)
    {
      StepProgresses(g, steps, worlds, k, fp);
    }
  }

  lemma SinceNext(steps: seq<Step>, worlds: seq<World>, j: nat, k: nat, fp: Fp)
    requires |worlds| == |steps| + 1 && k < |steps| && InSince(steps, worlds, j, k, fp)
    requires fp in worlds[k].table && !LeavesAt(steps, worlds, k, fp)
    ensures InSince(steps, worlds, j, k + 1, fp)
  {
  }

  lemma HeardNext(worlds: seq<World>, m: nat, k: nat, fp: Fp)
    requires k + 1 < |worlds| && LastHeard(worlds, m, k, fp)
    ensures LastHeard(worlds, if HeardAt(worlds, k, fp) then k else m, k + 1, fp)
  {
  }

  lemma CountsNext(turns: seq<Turn>, turn: Turn, c: Client, c': Client)
    requires Counts(turns, c)
    requires TurnTaken(turn, c.(ip := c'.ip, port := c'.port, key := c'.key, lastHb := c'.lastHb), c')
    ensures Counts(turns + [turn], c')
  {
    TurnCounts(turns, turn, c.sendErrors);
  }

  lemma ToldNext(steps: seq<Step>, worlds: seq<World>, j: nat, m: nat, k: nat, fp: Fp, c: Client, c': Client)
    returns (m': nat)
    requires |worlds| == |steps| + 1 && k < |steps| && fp in worlds[k].table
    requires Told(steps, worlds, j, m, k, fp, c) && !LeavesAt(steps, worlds, k, fp)
    requires if HeardAt(worlds, k, fp)
             then
               && fp in worlds[k].auth.sessions && steps[k].event.Datagram?
               && Moved(worlds[k].auth.sessions[fp], steps[k].event.ip, steps[k].event.port, steps[k].at, c, c')
             else TurnTaken(TurnIn(steps[k].event, fp), c, c')
    ensures Told(steps, worlds, j, m', k + 1, fp, c')
  {
    SinceNext(steps, worlds, j, k, fp);
    HeardNext(worlds, m, k, fp);
    CountsNext(TurnsIn(steps, j, k, fp), TurnIn(steps[k].event, fp), c, c');
    m' := if HeardAt(worlds, k, fp) then k else m;
  }

  lemma {:induction false} Trace(steps: seq<Step>, worlds: seq<World>, k: nat, fp: Fp)
    returns (j: nat, m: nat)
    requires Progress(steps, worlds, fp) && k < |worlds| && fp in worlds[k].table
    ensures Told(steps, worlds, j, m, k, fp, worlds[k].table[fp])
  {
    j, m := 0, 0;
    if k > 0 {
      assert Progresses(steps, worlds, k - 1, fp);
      if EntersAt(worlds, k - 1, fp) {
        j, m := k - 1, k - 1;
      } else {
        j, m := Trace(steps, worlds, k - 1, fp);
        m := ToldNext(steps, worlds, j, m, k - 1, fp, worlds[k - 1].table[fp], worlds[k].table[fp]);
      }
    }
  }

  lemma OneEntry(steps: seq<Step>, worlds: seq<World>, i: nat, j: nat, k: nat, fp: Fp)
    requires |worlds| == |steps| + 1 && InSince(steps, worlds, i, k, fp) && InSince(steps, worlds, j, k, fp)
    ensures i == j
  {
  }

  lemma StillIn(steps: seq<Step>, worlds: seq<World>, j: nat, k: nat, fp: Fp)
    requires Progress(steps, worlds, fp) && InSince(steps, worlds, j, k, fp)
    ensures fp in worlds[k].table
  {
    assert Progresses(steps, worlds, k - 1, fp);
  }

  /** In every run a client is in the table if and only if a heartbeat entered it
      and nothing that removes one has come since. */
  lemma StreamsExactly(g: Setting, steps: seq<Step>, worlds: seq<World>, k: nat, fp: Fp)
    requires IsRun(g, steps, worlds) && k < |worlds|
    ensures fp in worlds[k].table <==> exists j: nat :: InSince(steps, worlds, j, k, fp)
  {
    RunProgresses(g, steps, worlds, fp);
    if fp in worlds[k].table {
      var j, m := Trace(steps, worlds, k, fp);
    }
    forall j: nat | InSince(steps, worlds, j, k, fp)
      ensures fp in worlds[k].table
    {
      StillIn(steps, worlds, j, k, fp);
    }
  }

  /** In every run an entry has the address and port of the last heartbeat that was
      heard, and the key of the session that heard it; it counts the frames sent
      since it was made, and its errors are the failed turns since the last frame
      that was sent. */
  lemma EntryKnown(g: Setting, steps: seq<Step>, worlds: seq<World>, k: nat, fp: Fp) returns (j: nat, m: nat)
    requires IsRun(g, steps, worlds) && k < |worlds| && fp in worlds[k].table
    ensures Told(steps, worlds, j, m, k, fp, worlds[k].table[fp])
  {
    RunProgresses(g, steps, worlds, fp);
    j, m := Trace(steps, worlds, k, fp);
  }

  lemma NoEntryInRound(g: Setting, steps: seq<Step>, worlds: seq<World>, k: nat, fp: Fp)
    requires IsRun(g, steps, worlds) && k < |steps| && steps[k].event.BroadcastRound? && fp in worlds[k].table
    ensures fp in worlds[k + 1].table <==> !LeavesAt(steps, worlds, k, fp)
  {
    StepProgresses(g, steps, worlds, k, fp);
  }

  lemma FiveAfter(turns: seq<Turn>, turn: Turn, n: nat)
    requires FailedLast(turns, n) && n < 5
    ensures FiveFailures(turns + [turn]) <==> turn == Failed && n >= 4
  {
    TurnCounts(turns, turn, n);
    FiveOrMore(turns + [turn], if turn == Sent then 0 else if turn == Failed then n + 1 else n);
  }

  lemma DropCounts(steps: seq<Step>, worlds: seq<World>, j: nat, m: nat, k: nat, fp: Fp)
    requires |worlds| == |steps| + 1 && k < |steps| && steps[k].event.BroadcastRound?
    requires fp in worlds[k].table && Told(steps, worlds, j, m, k, fp, worlds[k].table[fp])
    requires worlds[k].table[fp].sendErrors < 5
    ensures LeavesAt(steps, worlds, k, fp) <==> FiveFailures(TurnsIn(steps, j, k + 1, fp))
  {
    var turns, turn, n := TurnsIn(steps, j, k, fp), TurnIn(steps[k].event, fp), worlds[k].table[fp].sendErrors;
    assert TurnsIn(steps, j, k + 1, fp) == turns + [turn];
    FiveAfter(turns, turn, n);
  }

  /** A broadcast round drops a client if and only if, counting this round, the
      last five turns since it entered in which a frame was tried all failed. */
  lemma RoundDropsExactly(g: Setting, steps: seq<Step>, worlds: seq<World>, j: nat, k: nat, fp: Fp)
    requires IsRun(g, steps, worlds) && k < |steps| && steps[k].event.BroadcastRound?
    requires InSince(steps, worlds, j, k, fp)
    ensures fp in worlds[k + 1].table <==> !FiveFailures(TurnsIn(steps, j, k + 1, fp))
  {
    RunProgresses(g, steps, worlds, fp);
    StillIn(steps, worlds, j, k, fp);
    var i, m := Trace(steps, worlds, k, fp);
    OneEntry(steps, worlds, i, j, k, fp);
    ClientTable.TableIsKept(g, steps, worlds, k);
    DropCounts(steps, worlds, j, m, k, fp);
    NoEntryInRound(g, steps, worlds, k, fp);
  }
}
