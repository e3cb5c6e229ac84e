/**
 When the verdict on a job comes too late for the hub: as far as the labels go, the limit of
 VerdictIsInTime is exact.
 */
module LateVerdicts {
  import opened TwoColor
  import opened Reset
  import opened PrinterStatus
  import opened SendProtocol
  import opened SendTimes

  /** In these runs nothing is repeated and nothing cools; w is the time spent in writes. */
  predicate Plain(t: Task, log: seq<Entry>, m: Machine, w: nat) {
    && t.cfg == PRODUCTION
    && m == Replay(t, log) && Prompt(t, LABEL_TIME, log)
    && m.asks == 0 && m.cooled == 0 && m.resumed == 0 && m.writing == w
    && m.res.pages == t.job.pages && m.res.reasons == []
  }

  /** An entry that is prompt keeps the run so, if the step does. */
  lemma PlainMore(t: Task, log: seq<Entry>, m: Machine, w: nat, e: Entry) returns (more: seq<Entry>, r: Machine)
    requires Plain(t, log, m, w)
    requires PromptStep(m, e) && BriskStep(t, LABEL_TIME, m, e)
    ensures more == log + [e] && r == Step(t, m, e) == Replay(t, more) && Prompt(t, LABEL_TIME, more)
  {
    hide Replay, Prompt, Step, PromptStep, BriskStep;
    more, r := ThenPrompt(t, log, e);
  }

  /** The printer does not answer, and takes the data slowly. */
  lemma SlowStart(t: Task) returns (log: seq<Entry>, m: Machine)
    requires t.cfg == PRODUCTION && t.data != [] && t.job.pages > 0
    ensures Plain(t, log, m, WRITE_TIMEOUT)
    ensures m.phase == Waiting(false, 37150) && m.now == 17150 && m.res == Result(Undecided, [], t.job.pages, 0, true)
  {
    log, m := [], Start(t);
    assert Plain(t, log, m, 0);
    hide Replay, Prompt, CmdReset, Convert, OpeningBytes;
    log, m := PlainMore(t, log, m, 0, Entry(150, Expired));
    assert m == Start(t).(phase := Opening, now := 150, count := 1);
    log, m := PlainMore(t, log, m, 0, Entry(150, Wrote(OpeningBytes(), true)));
    assert m == Start(t).(phase := Asking(0, 2150), now := 150, count := 2);
    log, m := SlowSending(t, log, m);
  }

  lemma SlowSending(t: Task, front: seq<Entry>, was: Machine) returns (log: seq<Entry>, m: Machine)
    requires Plain(t, front, was, 0) && t.data != [] && t.job.pages > 0
    requires was == Start(t).(phase := Asking(0, 2150), now := 150, count := 2)
    ensures Plain(t, log, m, WRITE_TIMEOUT)
    ensures m.phase == Waiting(false, 37150) && m.now == 17150 && m.res == Result(Undecided, [], t.job.pages, 0, true)
  {
    hide Replay, Prompt, CmdReset, Convert, OpeningBytes;
    log, m := PlainMore(t, front, was, 0, Entry(2150, Expired));
    assert m == was.(phase := Phase.Sending, now := 2150, count := 3, load := t.data,
      res := Result(Undecided, [], t.job.pages, 0, true));
    log, m := AllTakenSlowly(t, log, m);
  }

  /** The chunks are taken at once, the last of them after the longest time. */
  lemma {:induction false} AllTakenSlowly(t: Task, front: seq<Entry>, was: Machine)
    returns (log: seq<Entry>, m: Machine)
    requires Plain(t, front, was, 0) && was.phase == Phase.Sending
    requires was.chunks * CHUNK < |was.load| && was.res.completed < t.job.pages
    ensures Plain(t, log, m, WRITE_TIMEOUT)
    ensures m.phase == Waiting(false, m.now + 20000) && m.now == was.now + WRITE_TIMEOUT && m.res == was.res
    decreases |was.load| - was.chunks * CHUNK
  {
    hide Replay, Prompt, Chunk;
    log, m := PlainMore(t, front, was, 0, Entry(was.now, Looked(false)));
    var last := (was.chunks + 1) * CHUNK >= |was.load|;
    var taken := if last then was.now + WRITE_TIMEOUT else was.now;
    log, m := PlainMore(t, log, m, 0, Entry(taken, Wrote(Chunk(was.load, was.chunks), true)));
    if !last {
      log, m := AllTakenSlowly(t, log, m);
    }
  }

  const DONE: Status := Status(0, 0, 62, 0x0A, 0, TYPE_PRINTING_COMPLETED, 0, 0, 1)

  /** Where the run is when n labels have come out, five seconds apart. */
  predicate LabelsOut(t: Task, m: Machine, n: nat) {
    && n < t.job.pages && m.res.completed == n && m.res.outcome == Undecided
    && m.now == 17150 + n * LABEL_TIME && m.phase == Waiting(n > 0, m.now + 20000)
  }

  lemma {:induction false} LabelsComeOut(t: Task, front: seq<Entry>, was: Machine, k: nat, n: nat)
    returns (log: seq<Entry>, m: Machine)
    requires Plain(t, front, was, WRITE_TIMEOUT) && LabelsOut(t, was, k) && k <= n < t.job.pages
    ensures Plain(t, log, m, WRITE_TIMEOUT) && LabelsOut(t, m, n)
    decreases n - k
  {
    log, m := front, was;
    if k < n {
      hide Replay, Prompt;
      log, m := PlainMore(t, log, m, WRITE_TIMEOUT, Entry(was.now + LABEL_TIME, Got(DONE)));
      log, m := LabelsComeOut(t, log, m, k + 1, n);
    }
  }

  /** No more labels: the time is up, and the printer is asked. */
  lemma LabelsStop(t: Task, front: seq<Entry>, was: Machine, n: nat) returns (log: seq<Entry>, m: Machine)
    requires Plain(t, front, was, WRITE_TIMEOUT) && LabelsOut(t, was, n) && n > 0
    ensures Plain(t, log, m, WRITE_TIMEOUT)
    ensures m.now == was.now + 20000 && m.phase == Listening(Overdue, 0, m.now + 2000) && m.res == was.res
  {
    hide Replay, Prompt;
    log, m := PlainMore(t, front, was, WRITE_TIMEOUT, Entry(was.now + 20000, Expired));
    assert m.phase == Inquiring(Overdue) && m.res == was.res;
    log, m := PlainMore(t, log, m, WRITE_TIMEOUT, Entry(was.now + 20000, Wrote(STATUS_REQUEST, true)));
  }

  /** It does not answer: the job has failed, and the verdict waits for a frame that still comes. */
  lemma ThenFailed(t: Task, front: seq<Entry>, was: Machine, due: nat) returns (log: seq<Entry>, m: Machine)
    requires Plain(t, front, was, WRITE_TIMEOUT) && was.phase == Listening(Overdue, 0, due) && was.now <= due
    requires was.res.completed < t.job.pages
    ensures m == Replay(t, log) && Prompt(t, LABEL_TIME, log) && m.phase == Finished
    ensures m.asks == 0 && m.cooled == 0 && m.resumed == 0 && m.writing == WRITE_TIMEOUT
    ensures m.res.completed == was.res.completed && m.now == due + 950
  {
    hide Replay, Prompt, CmdReset;
    log, m := PlainMore(t, front, was, WRITE_TIMEOUT, Entry(due, Expired));
    assert m.phase == Failing(Lone(NoCompletion), true) && m.res == was.res;
    var e := Entry(due, StatePlus(ReasonList(Lone(NoCompletion))));
    hide ReasonList;
    log, m := ThenPrompt(t, log, e);
    assert m.phase == Resetting(ThenFinish) && m.res.completed == was.res.completed;
    log, m := ThenReset(t, log, due);
  }

  lemma ThenReset(t: Task, front: seq<Entry>, due: nat) returns (log: seq<Entry>, m: Machine)
    requires t.cfg == PRODUCTION && Prompt(t, LABEL_TIME, front)
    requires Replay(t, front).phase == Resetting(ThenFinish) && Replay(t, front).now == due
    ensures m == Replay(t, log) && Prompt(t, LABEL_TIME, log) && m.phase == Finished && m.now == due + 950
    ensures var was := Replay(t, front);
      m == was.(phase := m.phase, now := m.now, count := m.count, after := m.after)
  {
    hide Replay, Prompt, CmdReset;
    log, m := ThenPrompt(t, front, Entry(due, Wrote(CmdReset(), true)));
    assert m.phase == Draining(due + 500, due + 3000, ThenFinish);
    log, m := ThenPrompt(t, log, Entry(due + 450, Got(DONE)));
    log, m := ThenPrompt(t, log, Entry(due + 950, Expired));
  }

  /** The last label is reported at the last moment after all, and the printer says no more. */
  lemma ThenPrinted(t: Task, front: seq<Entry>, was: Machine, due: nat) returns (log: seq<Entry>, m: Machine)
    requires Plain(t, front, was, WRITE_TIMEOUT) && was.phase == Listening(Overdue, 0, due) && was.now <= due
    requires was.res.completed + 1 == t.job.pages
    ensures m == Replay(t, log) && Prompt(t, LABEL_TIME, log) && m.phase == Finished
    ensures m.asks == 0 && m.cooled == 0 && m.resumed == 0 && m.writing == WRITE_TIMEOUT
    ensures m.res.completed == t.job.pages && m.now == due + 1500
  {
    hide Replay, Prompt;
    log, m := PlainMore(t, front, was, WRITE_TIMEOUT, Entry(due, Got(DONE)));
    assert m.phase == Listening(Overdue, 1, due) && m.res == was.res;
    log, m := ThenPrompt(t, log, Entry(due, Expired));
    assert m.phase == Settling(due + 1500) && m.res.completed == t.job.pages;
    log, m := ThenSettled(t, log, due + 1500);
  }

  lemma ThenSettled(t: Task, front: seq<Entry>, due: nat) returns (log: seq<Entry>, m: Machine)
    requires Prompt(t, LABEL_TIME, front)
    requires Replay(t, front).phase == Settling(due) && Replay(t, front).now <= due
    ensures m == Replay(t, log) && Prompt(t, LABEL_TIME, log) && m.phase == Finished && m.now == due
    ensures var was := Replay(t, front); m == was.(phase := m.phase, now := m.now, count := m.count, res := m.res)
    ensures m.res.completed == Replay(t, front).res.completed
  {
    hide Replay, Prompt;
    log, m := ThenPrompt(t, front, Entry(due, Expired));
    log, m := ThenPrompt(t, log, Entry(due, StateMinus));
  }

  /**
   Of five labels or more, with four out or more: a run, all as expected, whose verdict comes
   when the hub has stopped waiting.
   */
  lemma {:induction false} LateVerdict(t: Task, n: nat) returns (log: seq<Entry>)
    requires t.cfg == PRODUCTION && t.data != [] && 4 <= n <= t.job.pages && t.job.pages >= 5
    ensures Expected(t, log) && Replay(t, log).res.completed == n
    ensures Replay(t, log).now > RawConfirmWait(true, t.job.pages)
  {
    var m;
    hide Replay, Prompt;
    log, m := SlowStart(t);
    log, m := LabelsComeOut(t, log, m, 0, if n < t.job.pages then n else n - 1);
    log, m := LabelsStop(t, log, m, m.res.completed);
    CapBindsFromFive(t.job.pages);
    if n < t.job.pages {
      log, m := ThenFailed(t, log, m, m.now + 2000);
    } else {
      log, m := ThenPrinted(t, log, m, m.now + 2000);
    }
  }

  /**
   Of any job that has data, and a number of its labels: the verdict on every
   expected run in which that many come out is in before the hub stops waiting, if and only
   if the job has no more than four labels or that number is no more than three.
   */
  lemma {:induction false} InTimeIff(t: Task, n: nat)
    requires t.cfg == PRODUCTION && t.data != [] && n <= t.job.pages
    ensures (forall log | Expected(t, log) && Replay(t, log).res.completed == n ::
               Replay(t, log).now <= RawConfirmWait(true, t.job.pages))
            <==> t.job.pages <= 4 || n <= 3
  {
    hide Expected, Replay;
    if t.job.pages <= 4 || n <= 3 {
      forall log | Expected(t, log) && Replay(t, log).res.completed == n
        ensures Replay(t, log).now <= RawConfirmWait(true, t.job.pages)
      {
        VerdictIsInTime(t, log);
      }
    } else {
      var log := LateVerdict(t, n);
    }
  }
}
