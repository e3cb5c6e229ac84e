/**
 The hub's wait and the backend's run, side by side. The hub starts to wait when the job is
 submitted; CUPS then starts the backend, which opens the printer and runs Send, and drops
 the job when the backend has exited. Runs are timed in milliseconds, waits in nanoseconds.
 */
module HubWait {
  import opened QueueWait
  import opened SendProtocol
  import opened SendTimes

  /**
   The hub hears of a job, printed or failed, before it stops waiting, if what comes before
   Send and after it, the start of the backend, the opening of the printer and the exit,
   takes a second or less in all: the wait finds the job gone, if it has no more than four
   labels or no more than three came out.
   */
  lemma {:induction false} HubHearsInTime(t: Task, run: seq<SendProtocol.Entry>, polls: seq<QueueWait.Entry>,
      id: string, submitted: int, leaves: int, late: nat)
    requires Expected(t, run) && (t.job.pages <= 4 || Replay(t, run).res.completed <= 3)
    requires leaves <= submitted + (Replay(t, run).now + 1000) * 1_000_000
    requires Waited(polls, id, submitted, submitted + RawConfirmWait(true, t.job.pages) * 1_000_000)
    requires Truthful(polls, id, leaves, late)
    ensures Gone(polls[|polls| - 1].seen, id)
    ensures submitted < leaves ==> leaves <= Reached(polls, submitted) < leaves + 250_000_000 + late
  {
    hide Replay, Expected, Waited, Truthful, Gone;
    VerdictIsInTime(t, run);
    NoticedInTime(polls, id, submitted, submitted + RawConfirmWait(true, t.job.pages) * 1_000_000, leaves, late);
  }
}
