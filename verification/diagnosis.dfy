/** Why printing does not complete: the diagnosis of a queue snapshot, and what the ages have to do with it. */
module Diagnosing {
  import opened PrintQueue
  import opened JobLedger

  datatype Code = Missing | Unreachable | Ok | Stalled | Backlog

  datatype Diagnosis = Diagnosis(code: Code, blocking: bool, clearQueue: bool)

  const STALLED_AFTER_SEC := 90

  function DiagnoseQueue(s: Snapshot): Diagnosis {
    if s.printerName == "" then Diagnosis(Missing, true, false)
    else if !s.backendReady || s.backendError != "" then Diagnosis(Unreachable, true, false)
    else if |s.jobs| == 0 then Diagnosis(Ok, false, false)
    else if s.queueState == "stalled" || s.oldestJobAgeSec >= STALLED_AFTER_SEC then Diagnosis(Stalled, true, true)
    else Diagnosis(Backlog, false, false)
  }

  /** There is a printer, and a way to it. */
  predicate Reachable(s: Snapshot) {
    s.printerName != "" && s.backendReady && s.backendError == ""
  }

  /** The clock never went back. */
  predicate Forward(history: seq<Look>) {
    forall i, j | 0 <= i <= j < |history| :: history[i].at <= history[j].at
  }

  /** The job has been there at every look for 90 seconds or more. */
  ghost predicate Stuck(history: seq<Look>, id: string) {
    exists k: nat | UnbrokenSince(history, id, k) ::
      history[|history| - 1].at - history[k].at >= 90_000_000_000
  }

  /** r is what AnnotateJobAges makes of the last snapshot of the history. */
  predicate LastAged(history: seq<Look>, snapshot: Snapshot, r: Snapshot) {
    && history != []
    && history[|history| - 1].jobs == snapshot.jobs
    && Aged(snapshot, r, history[|history| - 1].at, Ledger(history))
  }

  lemma {:induction false} AgeIsStay(history: seq<Look>, snapshot: Snapshot, r: Snapshot, i: nat) returns (k: nat)
    requires LastAged(history, snapshot, r) && Forward(history) && i < |r.jobs|
    ensures UnbrokenSince(history, r.jobs[i].id, k)
    ensures r.jobs[i].ageSec == (history[|history| - 1].at - history[k].at) / 1_000_000_000
    ensures r.jobs[i].ageSec >= STALLED_AFTER_SEC <==>
            history[|history| - 1].at - history[k].at >= 90_000_000_000
  {
    var id := snapshot.jobs[i].id;
    assert r.jobs[i].id == id;
    assert Listed(snapshot.jobs, id);
    k := StayBegan(history, id, |history| - 1);
    LedgerIsHistory(history, id);
  }

  /** A stay has one beginning. */
  lemma OneBeginning(history: seq<Look>, id: string, a: nat, b: nat)
    requires UnbrokenSince(history, id, a) && UnbrokenSince(history, id, b)
    ensures a == b
  {
    hide Listed;
  }

  /** Some age reaches 90 exactly if some job is stuck. */
  lemma {:induction false} OldIffStuck(history: seq<Look>, snapshot: Snapshot, r: Snapshot)
    requires LastAged(history, snapshot, r) && Forward(history)
    ensures r.oldestJobAgeSec >= 90 <==> exists id :: Stuck(history, id)
  {
    hide Ledger;
    if r.oldestJobAgeSec >= STALLED_AFTER_SEC {
      var i :| 0 <= i < |r.jobs| && r.jobs[i].ageSec == r.oldestJobAgeSec;
      var k := AgeIsStay(history, snapshot, r, i);
      assert Stuck(history, r.jobs[i].id);
    }
    if id :| Stuck(history, id) {
      var b: nat :| UnbrokenSince(history, id, b)
                    && history[|history| - 1].at - history[b].at >= 90_000_000_000;
      var i := ListedAt(history, id, b);
      var k := AgeIsStay(history, snapshot, r, i);
      OneBeginning(history, id, b, k);
      assert r.jobs[i].ageSec >= STALLED_AFTER_SEC;
    }
  }

  lemma ListedAt(history: seq<Look>, id: string, k: nat) returns (i: nat)
    requires UnbrokenSince(history, id, k)
    ensures i < |history[|history| - 1].jobs| && history[|history| - 1].jobs[i].id == id
  {
    assert Listed(history[|history| - 1].jobs, id);
    i :| 0 <= i < |history[|history| - 1].jobs| && history[|history| - 1].jobs[i].id == id;
  }

  /**
   Behind a printer that can be reached, jobs are called stalled if the queue says so or one of
   them is stuck, and only then.
   */
  lemma {:induction false} StalledIff(history: seq<Look>, snapshot: Snapshot, r: Snapshot)
    requires LastAged(history, snapshot, r) && Forward(history)
    ensures DiagnoseQueue(r).code == Stalled <==>
            (Reachable(snapshot) && snapshot.jobs != []
             && (snapshot.queueState == "stalled" || exists id :: Stuck(history, id)))
    ensures DiagnoseQueue(r).clearQueue <==> DiagnoseQueue(r).code == Stalled
  {
    hide Stuck, Ledger;
    OldIffStuck(history, snapshot, r);
  }

  /**
   The other diagnoses: a printer that has no name is missing, one that has and cannot be reached
   is unreachable; behind one that can be reached it is well if no job is listed, and a backlog
   if some are, the queue does not call itself stalled, and none is stuck. Printing is blocked by
   all but the last two.
   */
  lemma {:induction false} DiagnosisIff(history: seq<Look>, snapshot: Snapshot, r: Snapshot)
    requires LastAged(history, snapshot, r) && Forward(history)
    ensures var d := DiagnoseQueue(r);
      var named, ready := snapshot.printerName != "", snapshot.backendReady && snapshot.backendError == "";
      && (d.code == Missing <==> !named)
      && (d.code == Unreachable <==> named && !ready)
      && (d.code == Ok <==> named && ready && snapshot.jobs == [])
      && (d.code == Stalled <==>
          (named && ready && snapshot.jobs != []
           && (snapshot.queueState == "stalled" || exists id :: Stuck(history, id))))
      && (d.code == Backlog <==>
          (named && ready && snapshot.jobs != []
           && snapshot.queueState != "stalled" && !exists id :: Stuck(history, id)))
      && (d.blocking <==> d.code in {Missing, Unreachable, Stalled})
      && (d.clearQueue <==> d.code == Stalled)
  {
    hide Stuck, Ledger;
    OldIffStuck(history, snapshot, r);
  }

  /** Once stuck, a job stays so at every look until it leaves. */
  lemma {:induction false} StuckUntilItLeaves(history: seq<Look>, id: string, later: seq<Look>)
    requires Stuck(history, id) && Forward(history + later)
    requires forall j | 0 <= j < |later| :: Listed(later[j].jobs, id)
    ensures Stuck(history + later, id)
  {
    hide Listed;
    var k: nat :| UnbrokenSince(history, id, k)
                  && history[|history| - 1].at - history[k].at >= 90_000_000_000;
    var all := history + later;
    assert all[|history| - 1].at <= all[|all| - 1].at;
    assert UnbrokenSince(all, id, k);
  }

  /**
   A job there at every look for 90 seconds is diagnosed, and the diagnosis holds at every look
   until the job leaves.
   */
  lemma {:induction false} StalledUntilItLeaves(history: seq<Look>, id: string, k: nat, snapshot: Snapshot, r: Snapshot)
    requires LastAged(history, snapshot, r) && Forward(history) && Reachable(snapshot)
    requires k < |history| && forall j | k <= j < |history| :: Listed(history[j].jobs, id)
    requires history[|history| - 1].at - history[k].at >= 90_000_000_000
    ensures DiagnoseQueue(r) == Diagnosis(Stalled, true, true)
  {
    hide Listed, Ledger;
    var b := StayBegan(history, id, k);
    assert Stuck(history, id);
    StalledIff(history, snapshot, r);
    var i := ListedAt(history, id, b);
  }
}
