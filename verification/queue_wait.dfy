/**
 Waiting for a job to leave the queue: reading it again and again until it does not list
 the job, or the time is up. Times are in nanoseconds.
 */
module QueueWait {
  import opened PrintQueue

  /** How long to sleep after reading the queue: 250 ms, or 2 s if that failed. */
  const POLL := 250_000_000
  const BACKOFF := 2_000_000_000

  /** What one reading gave; jobs mean nothing if it failed. */
  datatype Reading = Reading(jobs: seq<Job>, failed: bool)

  datatype Entry =
    | Looked(began: int, ended: int, seen: Reading)
    | Slept(began: int, ended: int, asked: int)

  /** The clock, the queue and the sleep that the wait is given. Nothing is known of how long they take. */
  class Bench {
    var clock: int
    var log: seq<Entry>

    constructor (start: int)
      ensures clock == start && log == []
    {
      clock := start;
      log := [];
    }

    method Read() returns (r: Reading)
      modifies this
      ensures clock >= old(clock) && log == old(log) + [Looked(old(clock), clock, r)]
    {
      var later: int := *;
      r := *;
      var now := if later < clock then clock else later;
      log := log + [Looked(clock, now, r)];
      clock := now;
    }

    method Sleep(d: int)
      modifies this
      ensures clock >= old(clock) + d && log == old(log) + [Slept(old(clock), clock, d)]
    {
      var later: int := *;
      var now := if later < clock + d then clock + d else later;
      log := log + [Slept(clock, now, d)];
      clock := now;
    }
  }

  /** A reading that says the job has left. */
  predicate Gone(r: Reading, id: string) {
    !r.failed && !Listed(r.jobs, id)
  }

  function Min(a: int, b: int): int {
    if a < b then a else b
  }

  /** When the last thing logged was over. */
  function Reached(log: seq<Entry>, start: int): int {
    if log == [] then start else log[|log| - 1].ended
  }

  /** The log of a wait that is about to read: readings that do not end it, each followed by a sleep. */
  predicate Waiting(log: seq<Entry>, id: string, start: int, deadline: int) {
    || log == []
    || (var n := |log|;
        && n >= 2
        && Waiting(log[..n - 2], id, start, deadline)
        && LookedAt(log[n - 2], Reached(log[..n - 2], start))
        && !Gone(log[n - 2].seen, id)
        && log[n - 2].ended < deadline
        && log[n - 1].Slept?
        && log[n - 1].began == log[n - 2].ended
        && log[n - 1].asked == Min(if log[n - 2].seen.failed then BACKOFF else POLL, deadline - log[n - 1].began)
        && log[n - 1].ended >= log[n - 1].began + log[n - 1].asked)
  }

  predicate LookedAt(e: Entry, at: int) {
    e.Looked? && e.began == at && e.ended >= at
  }

  /** The log of a wait that is over: the last reading ended it, or the time is up. */
  predicate Waited(log: seq<Entry>, id: string, start: int, deadline: int) {
    && log != []
    && Waiting(log[..|log| - 1], id, start, deadline)
    && LookedAt(log[|log| - 1], Reached(log[..|log| - 1], start))
    && (Gone(log[|log| - 1].seen, id) || log[|log| - 1].ended >= deadline)
  }

  method WaitForQueueJob(id: string, timeout: int, bench: Bench) returns (r: Reading)
    requires bench.log == []
    modifies bench
    ensures Waited(bench.log, id, old(bench.clock), old(bench.clock) + timeout)
    ensures r == bench.log[|bench.log| - 1].seen && bench.clock == bench.log[|bench.log| - 1].ended
  {
    hide Gone, Waiting, Waited;
    ghost var start := bench.clock;
    var deadline := bench.clock + timeout;
    WaitStarts(id, start, deadline);
    while true
      invariant Waiting(bench.log, id, start, deadline)
      invariant bench.clock == Reached(bench.log, start)
      decreases deadline - bench.clock
    {
      ghost var before := bench.log;
      var reading := bench.Read();
      ghost var look := bench.log[|before|];
      GoneIff(reading, id);
      if !reading.failed {
        var job := FindJob(reading.jobs, id);
        if job.None? {
          WaitEnds(before, id, start, deadline, look);
          return reading;
        }
      }
      var remaining := deadline - bench.clock;
      if remaining <= 0 {
        WaitEnds(before, id, start, deadline, look);
        return reading;
      }
      var interval := if reading.failed then BACKOFF else POLL;
      bench.Sleep(Min(interval, remaining));
      WaitGoesOn(before, id, start, deadline, look, bench.log[|before| + 1]);
      assert bench.log == before + [look, bench.log[|before| + 1]];
    }
  }

  lemma WaitStarts(id: string, start: int, deadline: int)
    ensures Waiting([], id, start, deadline)
  {
  }

  lemma WaitGoesOn(log: seq<Entry>, id: string, start: int, deadline: int, look: Entry, nap: Entry)
    requires Waiting(log, id, start, deadline)
    requires LookedAt(look, Reached(log, start)) && !Gone(look.seen, id) && look.ended < deadline
    requires nap.Slept? && nap.began == look.ended && nap.ended >= nap.began + nap.asked
    requires nap.asked == Min(if look.seen.failed then BACKOFF else POLL, deadline - nap.began)
    ensures Waiting(log + [look, nap], id, start, deadline)
  {
    hide Gone;
    assert (log + [look, nap])[..|log|] == log;
  }

  lemma WaitEnds(log: seq<Entry>, id: string, start: int, deadline: int, look: Entry)
    requires Waiting(log, id, start, deadline)
    requires LookedAt(look, Reached(log, start)) && (Gone(look.seen, id) || look.ended >= deadline)
    ensures Waited(log + [look], id, start, deadline)
  {
    hide Gone, Waiting;
    assert (log + [look])[..|log|] == log;
  }

  lemma GoneIff(r: Reading, id: string)
    ensures Gone(r, id) <==> !r.failed && !Listed(r.jobs, id)
  {
  }

  // ----- What every wait keeps to -----

  /** No sleep is asked for that would end after the deadline, and none that is not a sleep. */
  predicate SleepsInTime(log: seq<Entry>, deadline: int) {
    forall i | 0 <= i < |log| && log[i].Slept? :: 0 < log[i].asked && log[i].began + log[i].asked <= deadline
  }

  lemma {:induction false} NeverSleepsPastDeadline(log: seq<Entry>, id: string, start: int, deadline: int)
    requires Waiting(log, id, start, deadline) || Waited(log, id, start, deadline)
    ensures SleepsInTime(log, deadline)
    decreases |log|
  {
    hide Gone;
    if log != [] {
      var n := |log|;
      var front := if Waited(log, id, start, deadline) then log[..n - 1] else log[..n - 2];
      NeverSleepsPastDeadline(front, id, start, deadline);
      forall i | 0 <= i < n && log[i].Slept? ensures 0 < log[i].asked && log[i].began + log[i].asked <= deadline {
        if i < |front| {
          assert front[i] == log[i];
        }
      }
    }
  }

  /**
   The first reading that says the job has left ends the wait; any other, failed ones among
   them, ends it only once the time is up.
   */
  lemma {:induction false} FirstGoneEnds(log: seq<Entry>, id: string, start: int, deadline: int)
    requires Waited(log, id, start, deadline)
    ensures forall i | 0 <= i < |log| && log[i].Looked? ::
      i == |log| - 1 <==> Gone(log[i].seen, id) || log[i].ended >= deadline
  {
    hide Gone, Waiting;
    var front := log[..|log| - 1];
    NoneGone(front, id, start, deadline);
    assert forall i | 0 <= i < |front| :: front[i] == log[i];
  }

  lemma {:induction false} NoneGone(log: seq<Entry>, id: string, start: int, deadline: int)
    requires Waiting(log, id, start, deadline)
    ensures forall i | 0 <= i < |log| && log[i].Looked? :: !Gone(log[i].seen, id) && log[i].ended < deadline
    decreases |log|
  {
    hide Gone;
    if log != [] {
      var front := log[..|log| - 2];
      NoneGone(front, id, start, deadline);
      forall i | 0 <= i < |log| && log[i].Looked? ensures !Gone(log[i].seen, id) && log[i].ended < deadline {
        if i < |front| {
          assert front[i] == log[i];
        }
      }
    }
  }

  /**
   Between a reading and the next lie 250 ms, or 2 s if it failed, unless the time is up before:
   that is slept for, or what is left of the time if it is less.
   */
  lemma {:induction false} ReadsAreSpaced(log: seq<Entry>, id: string, start: int, deadline: int, i: nat)
    requires Waiting(log, id, start, deadline) || Waited(log, id, start, deadline)
    requires i + 2 < |log| && log[i].Looked?
    ensures log[i + 1].Slept? && log[i + 2].Looked?
    ensures var rest, left := if log[i].seen.failed then 2_000_000_000 else 250_000_000, deadline - log[i].ended;
      && log[i + 1].asked == (if rest < left then rest else left) > 0
      && (log[i + 2].began >= log[i].ended + rest || log[i + 2].began >= deadline)
    decreases |log|
  {
    var n := |log|;
    if Waited(log, id, start, deadline) {
      var front := log[..n - 1];
      assert front[i] == log[i] && front[i + 1] == log[i + 1];
      EntriesAlternate(front, id, start, deadline);
      if i + 2 < |front| {
        ReadsAreSpaced(front, id, start, deadline, i);
        assert front[i + 2] == log[i + 2];
      } else {
        LastNap(front, id, start, deadline);
      }
    } else {
      var front := log[..n - 2];
      assert forall j | 0 <= j < |front| :: front[j] == log[j];
      EntriesAlternate(log, id, start, deadline);
      if i + 2 < |front| {
        ReadsAreSpaced(front, id, start, deadline, i);
      } else {
        LastNap(front, id, start, deadline);
      }
    }
  }

  /** Readings stand at even places, sleeps at odd ones. */
  lemma {:induction false} EntriesAlternate(log: seq<Entry>, id: string, start: int, deadline: int)
    requires Waiting(log, id, start, deadline)
    ensures |log| % 2 == 0 && forall j | 0 <= j < |log| :: log[j].Looked? <==> j % 2 == 0
    decreases |log|
  {
    hide Gone;
    if log != [] {
      var front := log[..|log| - 2];
      EntriesAlternate(front, id, start, deadline);
      assert forall j | 0 <= j < |front| :: front[j] == log[j];
    }
  }

  lemma LastNap(log: seq<Entry>, id: string, start: int, deadline: int)
    requires Waiting(log, id, start, deadline) && log != []
    ensures |log| >= 2
    ensures var look, nap := log[|log| - 2], log[|log| - 1];
      var rest, left := if look.seen.failed then 2_000_000_000 else 250_000_000, deadline - look.ended;
      && nap.asked == (if rest < left then rest else left) > 0 && Reached(log, start) == nap.ended
      && (nap.ended >= look.ended + rest || nap.ended >= deadline)
  {
    hide Gone;
  }

  /** After n readings and sleeps, n - 1 intervals have gone by; n have, unless the time is up. */
  lemma {:induction false} IntervalsGoBy(log: seq<Entry>, id: string, start: int, deadline: int)
    requires Waiting(log, id, start, deadline)
    ensures |log| % 2 == 0
    ensures Reached(log, start) - start >= |log| / 2 * POLL || Reached(log, start) >= deadline
    ensures log != [] ==> log[|log| - 1].Slept? && (|log| / 2 - 1) * POLL <= log[|log| - 1].began - start
    ensures log != [] ==> log[|log| - 1].began < deadline && log[|log| - 1].began < Reached(log, start)
    decreases |log|
  {
    hide Gone;
    if log != [] {
      IntervalsGoBy(log[..|log| - 2], id, start, deadline);
    }
  }

  function Ceil(a: int, b: int): int
    requires b > 0
  {
    (a + b - 1) / b
  }

  /**
   The queue is read at most once at the start and once for every interval begun, in the time
   taken and in the time allowed.
   */
  lemma {:induction false} ReadsAreFew(log: seq<Entry>, id: string, start: int, deadline: int)
    requires Waited(log, id, start, deadline)
    ensures var looks := (|log| + 1) / 2;
      && looks <= 1 + Ceil(Reached(log, start) - start, POLL)
      && (deadline > start ==> looks <= 1 + Ceil(deadline - start, POLL))
      && (deadline <= start ==> looks == 1)
  {
    hide Gone, Waiting;
    IntervalsGoBy(log[..|log| - 1], id, start, deadline);
  }

  /** r is the last reading that did not fail. */
  ghost predicate LastRead(log: seq<Entry>, r: Reading) {
    exists i | 0 <= i < |log| ::
      && log[i].Looked? && log[i].seen == r && !r.failed
      && forall j | i < j < |log| && log[j].Looked? :: log[j].seen.failed
  }

  /** The queue was read at some time. */
  ghost predicate SomeRead(log: seq<Entry>) {
    exists i | 0 <= i < |log| :: log[i].Looked? && !log[i].seen.failed
  }

  lemma {:induction false} LastReadExists(log: seq<Entry>)
    requires SomeRead(log)
    ensures exists r :: LastRead(log, r)
    decreases |log|
  {
    var n := |log| - 1;
    var front, e := log[..n], log[n];
    if e.Looked? && !e.seen.failed {
      assert LastRead(log, e.seen);
    } else {
      var i :| 0 <= i < |log| && log[i].Looked? && !log[i].seen.failed;
      assert front[i] == log[i];
      LastReadExists(front);
      var r :| LastRead(front, r);
      LastReadStays(log, r);
    }
  }

  lemma LastReadStays(log: seq<Entry>, r: Reading)
    requires log != [] && LastRead(log[..|log| - 1], r)
    requires log[|log| - 1].Looked? ==> log[|log| - 1].seen.failed
    ensures LastRead(log, r)
  {
    var front := log[..|log| - 1];
    var i :| 0 <= i < |front| && front[i].Looked? && front[i].seen == r && !r.failed
             && forall j | i < j < |front| && front[j].Looked? :: front[j].seen.failed;
    assert log[i] == front[i];
    forall j | i < j < |log| && log[j].Looked? ensures log[j].seen.failed {
      assert j < |front| ==> log[j] == front[j];
    }
  }

  /**
   What is returned is documented as the last queue read successfully, at the deadline too.
   A caller gets something else, a failed reading, exactly if the last reading fails after
   one that did not. That is at the deadline, and the queue not returned lists the job.
   */
  lemma {:induction false} ReturnsLastReadIff(log: seq<Entry>, id: string, start: int, deadline: int)
    requires Waited(log, id, start, deadline)
    ensures var r := log[|log| - 1].seen;
      && (LastRead(log, r) <==> !r.failed)
      && ((exists q :: LastRead(log, q) && q != r) <==> r.failed && SomeRead(log))
      && (r.failed ==> log[|log| - 1].ended >= deadline)
      && (forall q | LastRead(log, q) && q != r :: Listed(q.jobs, id))
  {
    hide Waiting;
    var n := |log| - 1;
    var r := log[n].seen;
    if !r.failed {
      assert LastRead(log, r);
    } else if SomeRead(log) {
      LastReadExists(log);
    }
    NoneGone(log[..n], id, start, deadline);
    forall q | LastRead(log, q) && q != r ensures Listed(q.jobs, id) && r.failed && SomeRead(log) {
      var i :| 0 <= i < |log| && log[i].Looked? && log[i].seen == q && !q.failed
               && forall j | i < j < |log| && log[j].Looked? :: log[j].seen.failed;
      assert i < n && log[..n][i] == log[i];
    }
  }

  /** A wait of a quarter of a second: the queue is read with the job in it, and then cannot be read. */
  lemma {:induction false} LastReadingFails(job: Job, log: seq<Entry>)
    requires log == [Looked(0, 0, Reading([job], false)), Slept(0, POLL, POLL), Looked(POLL, POLL, Reading([], true))]
    ensures Waited(log, job.id, 0, POLL)
    ensures LastRead(log, Reading([job], false)) && !LastRead(log, log[2].seen)
  {
    assert Listed([job], job.id) by {
      assert [job][0].id == job.id;
    }
    WaitStarts(job.id, 0, POLL);
    WaitGoesOn([], job.id, 0, POLL, log[0], log[1]);
    WaitEnds([] + [log[0], log[1]], job.id, 0, POLL, log[2]);
    assert log == [] + [log[0], log[1]] + [log[2]];
    assert log[0].seen == Reading([job], false);
  }

  // ----- How soon it is noticed that the job has left -----

  /**
   Reading is instant and never fails, the job is listed until `leaves`, and no sleep is longer
   than asked by more than `late`.
   */
  predicate Truthful(log: seq<Entry>, id: string, leaves: int, late: nat) {
    && (forall i | 0 <= i < |log| && log[i].Looked? ::
          && log[i].ended == log[i].began
          && !log[i].seen.failed
          && (Listed(log[i].seen.jobs, id) <==> log[i].began < leaves))
    && (forall i | 0 <= i < |log| && log[i].Slept? :: log[i].ended <= log[i].began + log[i].asked + late)
  }

  lemma {:induction false} StillListed(log: seq<Entry>, id: string, start: int, deadline: int, leaves: int, late: nat)
    requires Waiting(log, id, start, deadline) && Truthful(log, id, leaves, late) && log != []
    ensures start < leaves && Reached(log, start) < leaves + POLL + late
    decreases |log|
  {
    hide Listed;
    var front := log[..|log| - 2];
    assert forall i | 0 <= i < |front| :: front[i] == log[i];
    if front != [] {
      StillListed(front, id, start, deadline, leaves, late);
    }
  }

  /** A job that leaves by the deadline is found gone, at the start or within 250 ms and a late sleep of its leaving. */
  lemma {:induction false} NoticedInTime(log: seq<Entry>, id: string, start: int, deadline: int, leaves: int, late: nat)
    requires Waited(log, id, start, deadline) && Truthful(log, id, leaves, late)
    requires leaves <= deadline
    ensures Gone(log[|log| - 1].seen, id)
    ensures if leaves <= start then Reached(log, start) == start
            else leaves <= Reached(log, start) < leaves + 250_000_000 + late
  {
    hide Listed, Waiting;
    var front := log[..|log| - 1];
    assert forall i | 0 <= i < |front| :: front[i] == log[i];
    if front != [] {
      StillListed(front, id, start, deadline, leaves, late);
    }
  }
}
