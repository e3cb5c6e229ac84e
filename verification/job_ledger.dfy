/**
 How long each job has waited: the hub notes when it first sees a job queued, and forgets
 it once the job has left. Times are in nanoseconds, ages in seconds.
 */
module JobLedger {
  import opened PrintQueue

  const SECOND := 1_000_000_000

  /** One look at the queue: when, and the jobs in it. */
  datatype Look = Look(at: int, jobs: seq<Job>)

  /** Whole seconds, rounded toward zero. */
  function Seconds(ns: int): int {
    if ns < 0 then -(-ns / SECOND) else ns / SECOND
  }

  /** So many whole seconds, and less than one more, of the same sign. */
  lemma {:induction false} SecondsAre(ns: int)
    ensures ns >= 0 ==> 0 <= ns - 1_000_000_000 * Seconds(ns) < 1_000_000_000
    ensures ns <= 0 ==> 0 <= 1_000_000_000 * Seconds(ns) - ns < 1_000_000_000
  {
  }

  function Ids(jobs: seq<Job>): set<string> {
    set i | 0 <= i < |jobs| :: jobs[i].id
  }

  /** The ledger after one more look: the ids listed, at the time they were noted, or now. */
  function Noted(seen: map<string, int>, look: Look): map<string, int> {
    map id | id in Ids(look.jobs) :: if id in seen then seen[id] else look.at
  }

  /** The ledger after a history of looks. */
  function Ledger(history: seq<Look>): map<string, int> {
    if history == [] then map[] else Noted(Ledger(history[..|history| - 1]), history[|history| - 1])
  }

  class Hub {
    var jobSeen: map<string, int>
    ghost var history: seq<Look>

    ghost predicate Valid()
      reads this
    {
      jobSeen == Ledger(history)
    }

    constructor ()
      ensures Valid() && history == []
    {
      jobSeen := map[];
      history := [];
    }

    /** Fills in the ages of the jobs in a snapshot taken now. */
    method AnnotateJobAges(snapshot: Snapshot, now: int) returns (r: Snapshot)
      requires Valid()
      modifies this
      ensures Valid() && history == old(history) + [Look(now, snapshot.jobs)]
      ensures Aged(snapshot, r, now, jobSeen)
    {
      hide AgedUpTo, Oldest, Including, Noted;
      ghost var was := jobSeen;
      var jobs, live, oldest := AgeJobs(snapshot.jobs, now);
      ghost var all := jobSeen;
      ForgetGone(live);
      NotedIs(was, snapshot.jobs, now, all, jobSeen);
      AgedStill(snapshot.jobs, jobs, now, all, live, jobSeen);
      history := history + [Look(now, snapshot.jobs)];
      assert history[..|history| - 1] == old(history);
      r := snapshot.(jobs := jobs, oldestJobAgeSec := oldest);
    }

    /** The jobs with their ages, their ids, and the greatest age; ids not noted yet are noted. */
    method AgeJobs(before: seq<Job>, now: int) returns (jobs: seq<Job>, live: set<string>, oldest: int)
      modifies `jobSeen
      ensures live == Ids(before) && Including(old(jobSeen), live, now, jobSeen)
      ensures AgedUpTo(before, jobs, |before|, now, jobSeen) && Oldest(jobs, oldest)
    {
      hide AgedUpTo, Oldest, Including, Ids;
      live := {};
      oldest := 0;
      jobs := before;
      AgedNone(jobs, now, jobSeen);
      for i := 0 to |before|
        invariant |jobs| == |before| && live == Ids(before[..i])
        invariant Including(old(jobSeen), live, now, jobSeen)
        invariant AgedUpTo(before, jobs, i, now, jobSeen) && Oldest(jobs[..i], oldest)
      {
        var id := before[i].id;
        ghost var seen := jobSeen;
        IdsMore(before, i);
        IncludingMore(old(jobSeen), live, now, seen, id);
        live := live + {id};
        if id !in jobSeen {
          jobSeen := jobSeen[id := now];
        }
        var age := Seconds(now - jobSeen[id]);
        OldestMore(jobs, i, oldest, age);
        AgedMore(before, jobs, i, now, seen, jobSeen);
        jobs := jobs[i := jobs[i].(ageSec := age)];
        if age > oldest {
          oldest := age;
        }
      }
      assert before[..|before|] == before && jobs[..|jobs|] == jobs;
    }

    /** Drops the ids that are not live. */
    method ForgetGone(live: set<string>)
      modifies `jobSeen
      ensures jobSeen == map id | id in old(jobSeen) && id in live :: old(jobSeen)[id]
    {
      var ids := jobSeen.Keys;
      while ids != {}
        invariant ids <= jobSeen.Keys <= old(jobSeen).Keys
        invariant forall id | id in jobSeen :: jobSeen[id] == old(jobSeen)[id] && (id in ids || id in live)
        invariant forall id | id in old(jobSeen) && id in live :: id in jobSeen
        decreases |ids|
      {
        var id :| id in ids;
        ids := ids - {id};
        if id !in live {
          jobSeen := jobSeen - {id};
        }
      }
    }
  }

  lemma IdsMore(jobs: seq<Job>, n: nat)
    requires n < |jobs|
    ensures Ids(jobs[..n + 1]) == Ids(jobs[..n]) + {jobs[n].id}
  {
    var less, more := jobs[..n], jobs[..n + 1];
    assert forall i | 0 <= i < n :: less[i] == more[i];
    assert more[n] == jobs[n];
  }

  /** What was noted before, and the live ids, noted now if they were not. */
  predicate Including(was: map<string, int>, live: set<string>, now: int, seen: map<string, int>) {
    && seen.Keys == was.Keys + live
    && forall id | id in seen :: seen[id] == if id in was then was[id] else now
  }

  lemma IncludingMore(was: map<string, int>, live: set<string>, now: int, seen: map<string, int>, id: string)
    requires Including(was, live, now, seen)
    ensures Including(was, live + {id}, now, if id in seen then seen else seen[id := now])
  {
    var more := if id in seen then seen else seen[id := now];
    assert more.Keys == seen.Keys + {id};
  }

  lemma NotedIs(was: map<string, int>, jobs: seq<Job>, now: int, all: map<string, int>, seen: map<string, int>)
    requires Including(was, Ids(jobs), now, all)
    requires seen == map id | id in all && id in Ids(jobs) :: all[id]
    ensures seen == Noted(was, Look(now, jobs))
  {
    hide Ids;
    assert forall id | id in Ids(jobs) :: id in all.Keys;
  }

  /** The first n jobs are those of the snapshot with their ages; the rest are unchanged. */
  predicate AgedUpTo(before: seq<Job>, after: seq<Job>, n: nat, now: int, seen: map<string, int>) {
    && |before| == |after| && n <= |before|
    && (forall i | 0 <= i < n ::
          before[i].id in seen && after[i] == before[i].(ageSec := Seconds(now - seen[before[i].id])))
    && (forall i | n <= i < |before| :: after[i] == before[i])
  }

  lemma AgedNone(jobs: seq<Job>, now: int, seen: map<string, int>)
    ensures AgedUpTo(jobs, jobs, 0, now, seen) && Oldest([], 0)
    ensures Ids([]) == {} && Including(seen, {}, now, seen)
  {
  }

  lemma AgedMore(before: seq<Job>, after: seq<Job>, n: nat, now: int, seen: map<string, int>, more: map<string, int>)
    requires n < |before| && AgedUpTo(before, after, n, now, seen)
    requires before[n].id in more && forall id | id in seen :: id in more && more[id] == seen[id]
    ensures AgedUpTo(before, after[n := after[n].(ageSec := Seconds(now - more[before[n].id]))], n + 1, now, more)
  {
  }

  lemma AgedStill(before: seq<Job>, after: seq<Job>, now: int, all: map<string, int>, live: set<string>,
      seen: map<string, int>)
    requires AgedUpTo(before, after, |before|, now, all) && live == Ids(before)
    requires seen == map id | id in all && id in live :: all[id]
    ensures AgedUpTo(before, after, |before|, now, seen)
  {
    forall i | 0 <= i < |before| ensures before[i].id in seen {
      assert before[i].id in live;
    }
  }

  /** The greatest of the ages, or 0 if none is greater. */
  predicate Oldest(jobs: seq<Job>, oldest: int) {
    && oldest >= 0
    && (forall i | 0 <= i < |jobs| :: jobs[i].ageSec <= oldest)
    && (oldest > 0 ==> exists i | 0 <= i < |jobs| :: jobs[i].ageSec == oldest)
  }

  lemma OldestMore(jobs: seq<Job>, n: nat, oldest: int, age: int)
    requires n < |jobs| && Oldest(jobs[..n], oldest)
    ensures Oldest(jobs[n := jobs[n].(ageSec := age)][..n + 1], if age > oldest then age else oldest)
  {
    var now := jobs[n := jobs[n].(ageSec := age)][..n + 1];
    assert now == jobs[..n] + [jobs[n].(ageSec := age)];
    assert now[n].ageSec == age;
    if oldest > 0 && age <= oldest {
      var i :| 0 <= i < n && jobs[..n][i].ageSec == oldest;
      assert now[i].ageSec == oldest;
    }
  }

  /** r is the snapshot with every age, and the greatest of them, filled in. */
  predicate Aged(snapshot: Snapshot, r: Snapshot, now: int, seen: map<string, int>) {
    && r == snapshot.(jobs := r.jobs, oldestJobAgeSec := r.oldestJobAgeSec)
    && AgedUpTo(snapshot.jobs, r.jobs, |snapshot.jobs|, now, seen)
    && Oldest(r.jobs, r.oldestJobAgeSec)
  }

  // ----- The ledger and the history -----

  /** The job was there at every look from the k-th on, and not at the one before. */
  predicate UnbrokenSince(history: seq<Look>, id: string, k: nat) {
    && k < |history|
    && (forall j | k <= j < |history| :: Listed(history[j].jobs, id))
    && (k > 0 ==> !Listed(history[k - 1].jobs, id))
  }

  /** The ledger holds the jobs of the last look, each at the first look of its present stay. */
  lemma {:induction false} LedgerIsHistory(history: seq<Look>, id: string)
    ensures id in Ledger(history) <==> history != [] && Listed(history[|history| - 1].jobs, id)
    ensures forall k: nat | UnbrokenSince(history, id, k) :: Ledger(history)[id] == history[k].at
    decreases |history|
  {
    hide Listed;
    if history != [] {
      var n := |history| - 1;
      var front, look := history[..n], history[n];
      LedgerIsHistory(front, id);
      NotedIds(Ledger(front), look, id);
      forall k: nat | UnbrokenSince(history, id, k) ensures Ledger(history)[id] == history[k].at {
        if k < n {
          assert forall j | k <= j < n :: front[j] == history[j];
          assert UnbrokenSince(front, id, k);
        }
      }
    }
  }

  lemma NotedIds(seen: map<string, int>, look: Look, id: string)
    ensures id in Noted(seen, look) <==> Listed(look.jobs, id)
    ensures Listed(look.jobs, id) ==> Noted(seen, look)[id] == if id in seen then seen[id] else look.at
  {
  }

  /** Every job listed has a stay that began. */
  lemma {:induction false} StayBegan(history: seq<Look>, id: string, k: nat) returns (b: nat)
    requires k < |history| && forall j | k <= j < |history| :: Listed(history[j].jobs, id)
    ensures b <= k && UnbrokenSince(history, id, b)
    decreases k
  {
    hide Listed;
    b := k;
    if k > 0 && Listed(history[k - 1].jobs, id) {
      b := StayBegan(history, id, k - 1);
    }
  }
}
