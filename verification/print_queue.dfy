/** The CUPS queue as the hub reads it. */
module PrintQueue {
  import opened Wrappers

  datatype Job = Job(id: string, user: string, size: string, submittedAt: string, state: string, ageSec: int)

  datatype Snapshot = Snapshot(
    printerName: string,
    printerState: string,
    queueState: string,
    backendReady: bool,
    backendError: string,
    jobs: seq<Job>,
    oldestJobAgeSec: int)

  predicate Listed(jobs: seq<Job>, id: string) {
    exists i | 0 <= i < |jobs| :: jobs[i].id == id
  }

  /** The first job of that id. */
  method FindJob(jobs: seq<Job>, id: string) returns (job: Option<Job>)
    ensures job.Some? <==> Listed(jobs, id)
    ensures job.Some? ==> exists i | 0 <= i < |jobs| ::
                jobs[i] == job.value && job.value.id == id && forall j | 0 <= j < i :: jobs[j].id != id
  {
    for i := 0 to |jobs|
      invariant forall j | 0 <= j < i :: jobs[j].id != id
    {
      if jobs[i].id == id {
        return Some(jobs[i]);
      }
    }
    return None;
  }
}
