/** What it means for a device that was never trusted to be dropped from the
    table: it is out until the operator allows it once more. */
module Departures {
  import opened AuthModel
  import opened Server
  import ClientTable
  import Grants
  import Requests
  import Sessions

  /** Neither in the table nor with a session nor with a grant. */
  predicate Out(w: World, fp: Fp) {
    fp !in w.table && fp !in w.auth.sessions && !(fp in w.auth.pending && w.auth.pending[fp].allowOnce)
  }

  lemma TrustIsRemembered(g: Setting, steps: seq<Step>, worlds: seq<World>, j: nat, k: nat)
    requires IsRun(g, steps, worlds) && j <= k < |worlds|
    ensures worlds[j].everTrusted <= worlds[k].everTrusted
    decreases k
  {
    if j < k {
      TrustIsRemembered(g, steps, worlds, j, k - 1);
      StepInto(g, steps, worlds, k);
    }
  }

  lemma InstallRecorded(g: Setting, steps: seq<Step>, worlds: seq<World>, k: nat, fp: Fp)
    requires IsRun(g, steps, worlds) && k < |steps| && Sessions.InstallsAt(g, steps, worlds, k, fp)
    ensures exists i | i in worlds[k + 1].installs :: i.fp == fp && i.request == worlds[k].auth.pending[fp]
  {
    var w, s := worlds[k], steps[k];
    StepInto(g, steps, worlds, k + 1);
    Requests.AnsweredExactly(g.c, w.auth, fp, s.event.signature, s.at);
    Grants.InstallEffect(g, w, s.event, s.at);
    var i := worlds[k + 1].installs[|w.installs|];
    assert i in worlds[k + 1].installs;
  }

  /** No session comes of a request without a grant. */
  lemma NoInstall(g: Setting, steps: seq<Step>, worlds: seq<World>, k: nat, fp: Fp)
    requires IsRun(g, steps, worlds) && k < |steps| && fp !in worlds[k + 1].everTrusted
    requires !(fp in worlds[k].auth.pending && worlds[k].auth.pending[fp].allowOnce)
    ensures !Sessions.InstallsAt(g, steps, worlds, k, fp)
  {
    Grants.NoSessionWithoutGrant(g, steps, worlds, k + 1, fp);
    if Sessions.InstallsAt(g, steps, worlds, k, fp) {
      InstallRecorded(g, steps, worlds, k, fp);
      assert false;
    }
  }

  lemma NoEntry(g: Setting, steps: seq<Step>, worlds: seq<World>, k: nat, fp: Fp)
    requires IsRun(g, steps, worlds) && k < |steps| && fp !in worlds[k].table && fp !in worlds[k].auth.sessions
    ensures fp !in worlds[k + 1].table
  {
    StepInto(g, steps, worlds, k + 1);
    ClientTable.TableEffect(g, worlds[k], steps[k].event, steps[k].at);
  }

  lemma StaysOut(g: Setting, steps: seq<Step>, worlds: seq<World>, k: nat, fp: Fp)
    requires IsRun(g, steps, worlds) && k < |steps| && fp !in worlds[k + 1].everTrusted
    requires Out(worlds[k], fp) && steps[k].event != AllowOnceCmd(fp)
    ensures Out(worlds[k + 1], fp)
  {
    NoInstall(g, steps, worlds, k, fp);
    NoEntry(g, steps, worlds, k, fp);
    Sessions.StepProgresses(g, steps, worlds, k, fp);
    Requests.StepProgresses(g, steps, worlds, k, fp);
  }

  lemma {:induction false} OutThrough(worlds: seq<World>, j: nat, k: nat, fp: Fp)
    requires j <= k < |worlds| && Out(worlds[j], fp)
    requires forall i: nat {:trigger Out(worlds[i], fp)} | j <= i < k :: Out(worlds[i], fp) ==> Out(worlds[i + 1], fp)
    ensures Out(worlds[k], fp)
    decreases k
  {
    if j < k {
      OutThrough(worlds, j, k - 1, fp);
    }
  }

  lemma OutFrom(g: Setting, steps: seq<Step>, worlds: seq<World>, j: nat, k: nat, fp: Fp)
    requires IsRun(g, steps, worlds) && j <= k < |worlds| && fp !in worlds[k].everTrusted && Out(worlds[j], fp)
    requires forall i | j <= i < k :: steps[i].event != AllowOnceCmd(fp)
    ensures Out(worlds[k], fp)
  {
    forall i: nat | j <= i < k && Out(worlds[i], fp)
      ensures Out(worlds[i + 1], fp)
    {
      TrustIsRemembered(g, steps, worlds, i + 1, k);
      StaysOut(g, steps, worlds, i, fp);
    }
    OutThrough(worlds, j, k, fp);
  }

  lemma DroppedWithSession(g: Setting, steps: seq<Step>, worlds: seq<World>, j: nat, fp: Fp)
    requires IsRun(g, steps, worlds) && j < |steps| && fp !in worlds[j].everTrusted
    requires steps[j].event.CleanupTick? || steps[j].event.BroadcastRound?
    requires fp in worlds[j].table && fp !in worlds[j + 1].table
    ensures fp !in worlds[j + 1].auth.sessions
  {
    StepInto(g, steps, worlds, j + 1);
    Grants.NoSessionWithoutGrant(g, steps, worlds, j, fp);
    Sessions.DeparturesExactly(g, worlds[j], steps[j].event, steps[j].at);
  }

  /** When a device that is never trusted is dropped from the table, for silence
      or for failures, and has no other grant open, then it has no session, and is
      out of the table until the operator allows it once more: its old key is of
      no use, and neither are HELLOs, PINGs and answers. */
  lemma OutUntilAllowedAgain(g: Setting, steps: seq<Step>, worlds: seq<World>, j: nat, k: nat, fp: Fp)
    requires IsRun(g, steps, worlds) && j < k < |worlds| && fp !in worlds[k].everTrusted
    requires steps[j].event.CleanupTick? || steps[j].event.BroadcastRound?
    requires fp in worlds[j].table && fp !in worlds[j + 1].table
    requires fp in worlds[j + 1].auth.pending ==> !worlds[j + 1].auth.pending[fp].allowOnce
    requires forall i | j < i < k :: steps[i].event != AllowOnceCmd(fp)
    ensures fp !in worlds[k].table && fp !in worlds[k].auth.sessions
  {
    TrustIsRemembered(g, steps, worlds, j, k);
    DroppedWithSession(g, steps, worlds, j, fp);
    OutFrom(g, steps, worlds, j + 1, k, fp);
  }
}
