/**
 Send, the backend's side of the print protocol: it drains, asks, sends, waits for every
 label and ends the job. The world it talks to is a Port, which chooses freely what
 happens next; what happened is the Port's log, which Send proves to be a run of the machine.
 */
module Sending {
  import opened Wrappers
  import opened Bytes
  import opened JobParser
  import opened TwoColor
  import opened Reset
  import opened PrinterStatus
  import opened SendProtocol

  /** What a select came back with. */
  datatype Pick = Frame(st: Status) | Hung | TimedOut | CtxDone

  function ActOf(p: Pick): Act {
    match p
    case Frame(st) => Got(st)
    case Hung => Hangup
    case TimedOut => Expired
    case CtxDone => CancelSeen
  }

  /**
   The device, the frame reader's channel, the job's context, the clock and the log lines.
   Every call takes one unit of patience and leaves one entry in the log; when there is no
   patience left the call does not come back, which is how a run of any length that is
   still going on is told from one that has ended.
   */
  class Port {
    ghost const task: Task
    ghost const allowance: nat
    ghost var log: seq<Entry>
    ghost var m: Machine     // where the run stands: Replay of the log
    var now: nat
    var closed: bool         // the reader has ended
    var canceled: bool       // the context is done
    var patience: nat

    ghost predicate Valid()
      reads this
    {
      && m == Replay(task, log) && m.now == now && m.count == |log| && m.phase != Lost
      && |log| + patience == allowance
    }

    constructor (ghost task: Task, patience: nat)
      ensures Valid() && this.task == task && log == [] && m == Start(task) && this.patience == patience
    {
      this.task := task;
      this.allowance := patience;
      log := [];
      m := Start(task);
      now := 0;
      closed := false;
      canceled := false;
      this.patience := patience;
    }

    /** The entry was logged and the machine followed it. */
    twostate predicate Took(a: Act)
      reads this
    {
      && now >= old(now) && patience == old(patience) - 1
      && log == old(log) + [Entry(now, a)]
      && m == Step(task, old(m), Entry(now, a)) && m == Replay(task, log)
      && m.now == now && m.count == |log|
    }

    /** Time passes. */
    method Pass(least: nat) returns (alive: bool)
      modifies this`now, this`patience
      ensures alive ==> now >= old(now) && now >= least && patience == old(patience) - 1
      ensures !alive ==> now == old(now) && patience == old(patience) == 0
    {
      if patience == 0 {
        return false;
      }
      var later: int := *;
      if now < later {
        now := later;
      }
      if now < least {
        now := least;
      }
      patience := patience - 1;
      return true;
    }

    ghost method Note(a: Act)
      requires m == Replay(task, log) && m.now <= now && m.count == |log|
      modifies this`log, this`m
      ensures log == old(log) + [Entry(now, a)]
      ensures m == Step(task, old(m), Entry(now, a)) && m == Replay(task, log)
      ensures m.now == now && m.count == |log|
    {
      ReplayMore(task, log, Entry(now, a));
      hide Advance;
      m := Step(task, m, Entry(now, a));
      log := log + [Entry(now, a)];
    }

    /** A select on the frames, a timer due at `due` and, if cancelable, the context. */
    method Select(due: nat, cancelable: bool) returns (r: Option<Pick>)
      requires Valid()
      modifies this
      ensures r.None? ==> unchanged(this) && patience == 0
      ensures r.Some? ==> Took(ActOf(r.value))
      ensures r == Some(TimedOut) ==> now >= due
      ensures r == Some(CtxDone) ==> cancelable
    {
      var pick: Pick := *;
      if pick.CtxDone? && !cancelable {
        pick := TimedOut;
      }
      if pick.Frame? && closed {
        pick := Hung;
      }
      var alive := Pass(if pick.TimedOut? then due else 0);
      if !alive {
        return None;
      }
      if pick.Hung? {
        closed := true;
      }
      if pick.CtxDone? {
        canceled := true;
      }
      Note(ActOf(pick));
      return Some(pick);
    }

    /** dev.Write: whether all was taken. */
    method Write(b: seq<byte>) returns (r: Option<bool>)
      requires Valid()
      modifies this
      ensures r.None? ==> unchanged(this) && patience == 0
      ensures r.Some? ==> Took(Wrote(b, r.value))
    {
      var ok: bool := *;
      var alive := Pass(0);
      if !alive {
        return None;
      }
      Note(Wrote(b, ok));
      return Some(ok);
    }

    /** ctx.Err() != nil. Once canceled, always canceled. */
    method Look() returns (r: Option<bool>)
      requires Valid()
      modifies this
      ensures r.None? ==> unchanged(this) && patience == 0
      ensures r.Some? ==> Took(Looked(r.value)) && (old(canceled) ==> r.value) && canceled == r.value
    {
      var done: bool := *;
      var alive := Pass(0);
      if !alive {
        return None;
      }
      canceled := canceled || done;
      Note(Looked(canceled));
      return Some(canceled);
    }

    method Sleep(d: nat) returns (r: Option<()>)
      requires Valid()
      modifies this
      ensures r.None? ==> unchanged(this) && patience == 0
      ensures r.Some? ==> Took(Slept) && now >= old(now) + d
    {
      var alive := Pass(now + d);
      if !alive {
        return None;
      }
      Note(Slept);
      return Some(());
    }

    /** A STATE line for CUPS. */
    method Tell(a: Act) returns (r: Option<()>)
      requires Valid() && (a.StatePlus? || a.StateMinus?)
      modifies this
      ensures r.None? ==> unchanged(this) && patience == 0
      ensures r.Some? ==> Took(a)
    {
      var alive := Pass(0);
      if !alive {
        return None;
      }
      Note(a);
      return Some(());
    }
  }

  /** The machine as it was, but for the clock, the log's length and the time spent writing. */
  function Later(was: Machine, now: Machine): Machine {
    was.(now := now.now, count := now.count, writing := now.writing)
  }

  // Which part of the step applies, by phase.

  lemma StepInDraining(t: Task, m: Machine, e: Entry, idle: nat, limit: nat, then_: Then)
    requires e.at >= m.now && m.phase == Draining(idle, limit, then_)
    ensures Step(t, m, e) == StepDraining(t, Tick(m, e), idle, limit, then_, e.act)
  {
    hide StepDraining;
  }

  lemma StepInAsking(t: Task, m: Machine, e: Entry, attempt: nat, due: nat)
    requires e.at >= m.now && m.phase == Asking(attempt, due)
    ensures Step(t, m, e) == StepAsking(t, Tick(m, e), attempt, due, e.act)
  {
    hide StepAsking;
  }

  lemma StepInReasking(t: Task, m: Machine, e: Entry, attempt: nat)
    requires e.at >= m.now && m.phase == Reasking(attempt)
    ensures Step(t, m, e) == StepReasking(t, Tick(m, e), attempt, e.act)
  {
    hide StepReasking;
  }

  lemma StepInWaiting(t: Task, m: Machine, e: Entry, heard: bool, due: nat)
    requires e.at >= m.now && m.phase == Waiting(heard, due)
    ensures Step(t, m, e) == StepWaiting(t, Tick(m, e), heard, due, e.act)
  {
    hide StepWaiting;
  }

  lemma StepInInquiring(t: Task, m: Machine, e: Entry, why: Inquiry)
    requires e.at >= m.now && m.phase == Inquiring(why)
    ensures Step(t, m, e) == StepInquiring(t, Tick(m, e), why, e.act)
  {
    hide StepInquiring;
  }

  lemma StepInListening(t: Task, m: Machine, e: Entry, why: Inquiry, late: nat, due: nat)
    requires e.at >= m.now && m.phase == Listening(why, late, due)
    ensures Step(t, m, e) == StepListening(t, Tick(m, e), why, late, due, e.act)
  {
    hide StepListening;
  }

  lemma StepInSettling(t: Task, m: Machine, e: Entry, due: nat)
    requires e.at >= m.now && m.phase == Settling(due)
    ensures Step(t, m, e) == StepSettling(Tick(m, e), due, e.act)
  {
    hide StepSettling;
  }

  lemma StepInFailing(t: Task, m: Machine, e: Entry, ps: seq<Problem>, reset: bool)
    requires e.at >= m.now && m.phase == Failing(ps, reset)
    ensures Step(t, m, e) == StepFailing(Tick(m, e), ps, reset, e.act)
  {
    hide StepFailing;
  }

  lemma StepInResetting(t: Task, m: Machine, e: Entry, then_: Then)
    requires e.at >= m.now && m.phase == Resetting(then_)
    ensures Step(t, m, e) == StepResetting(t, Tick(m, e), then_, e.act)
  {
    hide StepResetting;
  }

  lemma StepInOpening(t: Task, m: Machine, e: Entry)
    requires e.at >= m.now && m.phase == Opening
    ensures Step(t, m, e) == StepOpening(t, Tick(m, e), e.act)
  {
    hide StepOpening;
  }

  lemma StepInChunking(t: Task, m: Machine, e: Entry)
    requires e.at >= m.now && m.phase == Chunking
    ensures Step(t, m, e) == StepChunking(t, Tick(m, e), e.act)
  {
    hide StepChunking;
  }

  lemma StepInShort(t: Task, m: Machine, e: Entry)
    requires e.at >= m.now
    ensures m.phase.Resting? && e.act.Slept? && e.at >= m.phase.until ==>
      Step(t, m, e) == Tick(m, e).(phase := Reasking(m.phase.attempt))
    ensures m.phase.Sending? && e.act.Looked? ==>
      Step(t, m, e) == Tick(m, e).(phase := if e.act.canceled then SendBroken else Chunking)
    ensures m.phase.SendBroken? && e.act.Looked? ==>
      Step(t, m, e) == Tick(m, e).(phase := if e.act.canceled then Canceling else Failing(Lone(NotAccepted), true))
    ensures m.phase.Clearing? && e.act.StateMinus? ==>
      Step(t, m, e) == Tick(m, e).(phase := Finished, res := m.res.(outcome := Printed, muted := false))
    ensures m.phase.Canceling? && e.act.Wrote? && e.act.bytes == CmdReset() ==>
      Step(t, m, e) == Tick(m, e).(phase := Finished, res := m.res.(outcome := Canceled), after := m.after + [Wiped])
  {
  }

  /** Where the reply to the attempt-th status request, or none, leads. */
  function AfterReply(t: Task, was: Machine, attempt: nat, reply: Option<Status>): Machine {
    match reply
    case None => Unanswered(t, was)
    case Some(st) =>
      var m := was.(replies := was.replies + 1);
      if !Busy(st) || attempt >= t.cfg.busyRetries then Answered(t, m, st)
      else m.(phase := Resting(attempt, m.now + 1000))
  }

  /** As Later, but for the status requests repeated before the job, and the replies, as well. */
  function LaterAsks(was: Machine, now: Machine): Machine {
    Later(was, now).(asks := now.asks, replies := now.replies)
  }

  function LaterChunks(was: Machine, now: Machine): Machine {
    Later(was, now).(chunks := now.chunks)
  }

  function LaterAfter(was: Machine, now: Machine): Machine {
    Later(was, now).(after := now.after)
  }

  /** Where the check before sending leads. */
  function AfterPreflight(t: Task, was: Machine, p: Preflight): Machine {
    match p
    case NotSent => was.(phase := Failing(Lone(CannotSend), false))
    case Silent => Unanswered(t, was)
    case Replied(st) => Answered(t, was, st)
  }

  /** Where a reply leads does not depend on the phase it is said to come in. */
  lemma FromAnyPhase(t: Task, m: Machine, phase: Phase)
    ensures Unanswered(t, m.(phase := phase)) == Unanswered(t, m)
    ensures forall st :: Answered(t, m.(phase := phase), st) == Answered(t, m, st)
  {
    hide Objections, LoadFor;
  }

  lemma InquiredFromAnyPhase(t: Task, m: Machine, phase: Phase, why: Inquiry, late: nat, answered: bool,
      reply: seq<Problem>)
    ensures Inquired(t, m.(phase := phase), why, late, answered, reply) == Inquired(t, m, why, late, answered, reply)
  {
  }

  datatype Preflight = NotSent | Silent | Replied(st: Status)

  datatype Probe = Probe(answered: bool, reply: Option<Status>, completed: nat)

  /** After one turn of the wait: it goes on, with the timer due then, or the job has ended. */
  datatype Turn = GoesOn(res: Result, heard: bool, due: nat) | Over(res: Result)

  class Sender {
    const cfg: Config

    constructor (cfg: Config)
      ensures this.cfg == cfg
    {
      this.cfg := cfg;
    }

    /** The job and data are this sender's task on the port. */
    ghost predicate Serves(dev: Port, job: Job, data: seq<byte>) {
      dev.task == Task(cfg, job, data)
    }

    /** Takes frames off until none comes for `quiet`, or for `max` at the longest. */
    method DrainFor(dev: Port, quiet: nat, max: nat, ghost then_: Then) returns (r: Option<()>)
      requires dev.Valid() && dev.task.cfg == cfg
      requires dev.m.phase == Draining(dev.now + quiet, dev.now + max, then_)
      requires quiet == if then_ == ThenOpen then 150 else cfg.settle / 3
      modifies dev
      ensures r.None? ==> dev.patience == 0
      ensures dev.Valid() && dev.patience <= old(dev.patience)
      ensures r.Some? ==> dev.m == Drained(dev.task, Later(old(dev.m), dev.m), then_)
    {
      hide Step, Replay;
      var limit := dev.now + max;
      while true
        invariant dev.Valid() && dev.patience <= old(dev.patience)
        invariant dev.m == Later(old(dev.m), dev.m).(phase := Draining(dev.now + quiet, limit, then_))
        decreases dev.patience
      {
        var idle := dev.now + quiet;
        ghost var was := dev.m;
        var pick :- dev.Select(if idle < limit then idle else limit, false);
        StepInDraining(dev.task, was, Entry(dev.now, ActOf(pick)), idle, limit, then_);
        match pick
        case Frame(_) =>
        case Hung => return Some(());
        case TimedOut => return Some(());
      }
    }

    method AwaitReply(dev: Port, ghost attempt: nat) returns (r: Option<Option<Status>>)
      requires dev.Valid() && dev.task.cfg == cfg
      requires dev.m.phase == Asking(attempt, dev.now + cfg.preflight)
      modifies dev
      ensures r.None? ==> dev.patience == 0
      ensures dev.Valid() && dev.patience <= old(dev.patience)
      ensures r.Some? ==> dev.patience < old(dev.patience)
      ensures r.Some? && r.value.Some? ==> IsReply(r.value.value)
      ensures r.Some? ==> dev.m == AfterReply(dev.task, Later(old(dev.m), dev.m), attempt, r.value)
    {
      hide Step, Replay, Unanswered, Answered, Busy, IsReply;
      var due := dev.now + cfg.preflight;
      while true
        invariant dev.Valid() && dev.patience <= old(dev.patience)
        invariant dev.m == Later(old(dev.m), dev.m)
        decreases dev.patience
      {
        ghost var was := dev.m;
        var pick :- dev.Select(due, false);
        StepInAsking(dev.task, was, Entry(dev.now, ActOf(pick)), attempt, due);
        match pick
        case Frame(st) =>
          if IsReply(st) {
            return Some(Some(st));
          }
        case Hung => return Some(None);
        case TimedOut => return Some(None);
      }
    }

    /** The busy printer's second, and one more request. */
    method AskAgain(dev: Port, ghost attempt: nat) returns (r: Option<bool>)
      requires dev.Valid() && dev.task.cfg == cfg && dev.m.phase == Resting(attempt, dev.now + 1000)
      modifies dev
      ensures r.None? ==> dev.patience == 0
      ensures dev.Valid() && dev.patience <= old(dev.patience)
      ensures r.Some? ==> dev.m == LaterAsks(old(dev.m), dev.m).(
        phase := if r.value then Asking(attempt + 1, dev.now + cfg.preflight) else Failing(Lone(CannotSend), false))
    {
      hide Step, Replay;
      ghost var was := dev.m;
      var _ :- dev.Sleep(1000);
      StepInShort(dev.task, was, Entry(dev.now, Slept));
      was := dev.m;
      var ok :- dev.Write(STATUS_REQUEST);
      StepInReasking(dev.task, was, Entry(dev.now, Wrote(STATUS_REQUEST, ok)), attempt);
      return Some(ok);
    }

    /** The exchange before the job: opening, replies, and requests as long as replies are busy and retries left. */
    method CheckFirst(dev: Port) returns (r: Option<Preflight>)
      requires dev.Valid() && dev.task.cfg == cfg && dev.m.phase == Opening
      modifies dev
      ensures r.None? ==> dev.patience == 0
      ensures dev.Valid() && dev.patience <= old(dev.patience)
      ensures r.Some? ==> dev.m == AfterPreflight(dev.task, LaterAsks(old(dev.m), dev.m), r.value)
    {
      hide Step, Replay, Unanswered, Answered, Busy, IsReply, OpeningBytes;
      ghost var was := dev.m;
      var ok :- dev.Write(OpeningBytes());
      StepInOpening(dev.task, was, Entry(dev.now, Wrote(OpeningBytes(), ok)));
      if !ok {
        return Some(NotSent);
      }
      var attempt := 0;
      while true
        invariant dev.Valid() && dev.patience <= old(dev.patience)
        invariant dev.m == LaterAsks(old(dev.m), dev.m).(phase := Asking(attempt, dev.now + cfg.preflight))
        decreases dev.patience
      {
        ghost var asking := dev.m;
        var reply :- AwaitReply(dev, attempt);
        FromAnyPhase(dev.task, LaterAsks(old(dev.m), dev.m), asking.phase);
        if reply.None? {
          return Some(Silent);
        }
        var st := reply.value;
        if !Busy(st) || attempt >= cfg.busyRetries {
          return Some(Replied(st));
        }
        ok :- AskAgain(dev, attempt);
        if !ok {
          return Some(NotSent);
        }
        attempt := attempt + 1;
      }
    }

    /** One chunk, unless the job is canceled. False if it was not taken. */
    method WriteChunk(dev: Port, load: seq<byte>, off: nat) returns (r: Option<bool>)
      requires dev.Valid() && dev.m.phase == Phase.Sending && dev.m.load == load
      requires off == dev.m.chunks * CHUNK < |load|
      modifies dev
      ensures r.None? ==> dev.patience == 0
      ensures dev.Valid() && dev.patience <= old(dev.patience)
      ensures r == Some(false) ==> dev.m == LaterChunks(old(dev.m), dev.m).(phase := SendBroken)
      ensures r == Some(true) ==> dev.m.chunks == old(dev.m.chunks) + 1
      ensures r == Some(true) && off + CHUNK < |load| ==> dev.m == LaterChunks(old(dev.m), dev.m)
      ensures r == Some(true) && off + CHUNK >= |load| ==> dev.m == JobOut(dev.task, LaterChunks(old(dev.m), dev.m))
    {
      hide Step, Replay;
      ghost var was := dev.m;
      var done :- dev.Look();
      StepInShort(dev.task, was, Entry(dev.now, Looked(done)));
      if done {
        return Some(false);
      }
      var end := if off + CHUNK < |load| then off + CHUNK else |load|;
      was := dev.m;
      assert load[off..end] == Chunk(load, was.chunks);
      var ok :- dev.Write(load[off..end]);
      StepInChunking(dev.task, was, Entry(dev.now, Wrote(load[off..end], ok)));
      return Some(ok);
    }

    /** All chunks in turn, with a look at the context before each. False if one was not taken. */
    method WriteJob(dev: Port, load: seq<byte>) returns (r: Option<bool>)
      requires dev.Valid() && dev.task.cfg == cfg
      requires load != [] ==> dev.m.phase == Phase.Sending && dev.m.load == load && dev.m.chunks == 0
      modifies dev
      ensures r.None? ==> dev.patience == 0
      ensures dev.Valid() && dev.patience <= old(dev.patience)
      ensures r == Some(true) ==>
        dev.m == if load == [] then old(dev.m) else JobOut(dev.task, LaterChunks(old(dev.m), dev.m))
      ensures r == Some(false) ==> dev.m == LaterChunks(old(dev.m), dev.m).(phase := SendBroken)
    {
      hide Step, Replay, Chunk, JobOut;
      var off := 0;
      while off < |load|
        invariant dev.Valid() && dev.patience <= old(dev.patience)
        invariant load == [] ==> off == 0 && dev.m == old(dev.m)
        invariant off < |load| ==> off == dev.m.chunks * CHUNK && dev.m == LaterChunks(old(dev.m), dev.m)
        invariant 0 < |load| <= off ==> dev.m == JobOut(dev.task, LaterChunks(old(dev.m), dev.m))
        decreases |load| - off
      {
        var ok :- WriteChunk(dev, load, off);
        if !ok {
          return Some(false);
        }
        off := off + CHUNK;
      }
      return Some(true);
    }

    /** The job has failed: one STATE line with the distinct reasons. */
    method FailProblems(dev: Port, res: Result, ps: seq<Problem>, ghost reset: bool) returns (r: Option<Result>)
      requires dev.Valid() && dev.m.phase == Failing(ps, reset) && dev.m.res == res && res.reasons == []
      modifies dev
      ensures r.None? ==> dev.patience == 0
      ensures dev.Valid() && dev.patience <= old(dev.patience)
      ensures r.Some? ==> dev.m.phase == (if reset then Resetting(ThenFinish) else Finished) && dev.m.res == r.value
    {
      hide Step, Replay;
      var reasons: seq<Reason> := [];
      var seen: set<Reason> := {};
      for i := 0 to |ps|
        invariant reasons == ReasonList(ps[..i])
        invariant forall x :: x in seen <==> x in reasons
      {
        assert ps[..i + 1][..i] == ps[..i];
        if ps[i].reason !in seen {
          seen := seen + {ps[i].reason};
          reasons := reasons + [ps[i].reason];
        }
      }
      assert ps[..|ps|] == ps;
      ghost var was := dev.m;
      var _ :- dev.Tell(StatePlus(reasons));
      StepInFailing(dev.task, was, Entry(dev.now, StatePlus(reasons)), ps, reset);
      return Some(res.(outcome := Failed, reasons := res.reasons + reasons));
    }

    /** The reset after a failure, and the frames that still come. */
    method Abort(dev: Port, res: Result) returns (r: Option<Result>)
      requires dev.Valid() && dev.task.cfg == cfg && dev.m.phase == Resetting(ThenFinish) && dev.m.res == res
      modifies dev
      ensures r.None? ==> dev.patience == 0
      ensures dev.Valid()
      ensures r.Some? ==> dev.m.phase == Finished && dev.m.res == r.value
    {
      hide Step, Replay, CmdReset;
      ghost var was := dev.m;
      var ok :- dev.Write(CmdReset());
      StepInResetting(dev.task, was, Entry(dev.now, Wrote(CmdReset(), ok)), ThenFinish);
      var _ :- DrainFor(dev, cfg.settle / 3, cfg.settle * 2, ThenFinish);
      return Some(res);
    }

    method FailAndAbort(dev: Port, res: Result, ps: seq<Problem>) returns (r: Option<Result>)
      requires dev.Valid() && dev.task.cfg == cfg
      requires dev.m.phase == Failing(ps, true) && dev.m.res == res && res.reasons == []
      modifies dev
      ensures r.None? ==> dev.patience == 0
      ensures dev.Valid()
      ensures r.Some? ==> dev.m.phase == Finished && dev.m.res == r.value
    {
      var failed :- FailProblems(dev, res, ps, true);
      r := Abort(dev, failed);
    }

    /** One inquiry: the reply to it, if any, and the completions that come first. */
    method ProbePrinter(dev: Port, ghost why: Inquiry) returns (r: Option<Probe>)
      requires dev.Valid() && dev.task.cfg == cfg && dev.m.phase == Inquiring(why)
      modifies dev
      ensures r.None? ==> dev.patience == 0
      ensures dev.Valid() && dev.patience <= old(dev.patience)
      ensures r.Some? ==> r.value.answered == r.value.reply.Some?
      ensures r.Some? ==> dev.m == Inquired(dev.task, LaterAfter(old(dev.m), dev.m), why, r.value.completed,
        r.value.answered, if r.value.answered then Problems(r.value.reply.value) else [])
    {
      hide Step, Replay, Problems, Inquired;
      ghost var was := dev.m;
      var ok :- dev.Write(STATUS_REQUEST);
      StepInInquiring(dev.task, was, Entry(dev.now, Wrote(STATUS_REQUEST, ok)), why);
      var pr := Probe(false, None, 0);
      if !ok {
        return Some(pr);
      }
      var due := dev.now + cfg.preflight;
      while true
        invariant dev.Valid() && dev.patience <= old(dev.patience)
        invariant pr == Probe(false, None, pr.completed)
        invariant dev.m == LaterAfter(old(dev.m), dev.m).(phase := Listening(why, pr.completed, due))
        decreases dev.patience
      {
        was := dev.m;
        var pick :- dev.Select(due, false);
        StepInListening(dev.task, was, Entry(dev.now, ActOf(pick)), why, pr.completed, due);
        InquiredFromAnyPhase(dev.task, LaterAfter(old(dev.m), dev.m), Listening(why, pr.completed, due), why,
          pr.completed, pick.Frame?, if pick.Frame? then Problems(pick.st) else []);
        match pick
        case Frame(st) =>
          if st.kind == TYPE_PRINTING_COMPLETED {
            pr := pr.(completed := pr.completed + 1);
          } else if st.kind == TYPE_REPLY || st.kind == TYPE_ERROR_OCCURRED {
            return Some(pr.(answered := true, reply := Some(st)));
          }
        case Hung => return Some(pr);
        case TimedOut => return Some(pr);
      }
    }

    /** After an error frame: reset, inquiry, failure; silence is one problem more. */
    method FailMidJob(dev: Port, res: Result, ps: seq<Problem>) returns (r: Option<Result>)
      requires dev.Valid() && dev.task.cfg == cfg
      requires dev.m.phase == Resetting(ThenInquire(ps)) && dev.m.res == res && res.reasons == []
      modifies dev
      ensures r.None? ==> dev.patience == 0
      ensures dev.Valid()
      ensures r.Some? ==> dev.m.phase == Finished && dev.m.res == r.value
    {
      hide Step, Replay, CmdReset;
      ghost var was := dev.m;
      var ok :- dev.Write(CmdReset());
      StepInResetting(dev.task, was, Entry(dev.now, Wrote(CmdReset(), ok)), ThenInquire(ps));
      var _ :- DrainFor(dev, cfg.settle / 3, cfg.settle * 2, ThenInquire(ps));
      var pr :- ProbePrinter(dev, Inquiry.Stopped(ps));
      var all := ps;
      if !pr.answered {
        all := all + [Problem(NotAnswering, "other-error")];
      }
      r := FailProblems(dev, res, all, false);
    }

    /** After a cancel: the reset, and no STATE line. */
    method Cancel(dev: Port, res: Result) returns (r: Option<Result>)
      requires dev.Valid() && dev.m.phase == Canceling && dev.m.res == res
      modifies dev
      ensures r.None? ==> dev.patience == 0
      ensures dev.Valid()
      ensures r.Some? ==> dev.m.phase == Finished && dev.m.res == r.value
    {
      hide Step, Replay, CmdReset;
      ghost var was := dev.m;
      var ok :- dev.Write(CmdReset());
      StepInShort(dev.task, was, Entry(dev.now, Wrote(CmdReset(), ok)));
      return Some(res.(outcome := Canceled));
    }

    /** All labels are out: frames are taken until the printer is receiving again, then the all-clear. */
    method Settle(dev: Port, res: Result) returns (r: Option<Result>)
      requires dev.Valid() && dev.task.cfg == cfg
      requires dev.m.phase == Settling(dev.now + cfg.settle) && dev.m.res == res
      modifies dev
      ensures r.None? ==> dev.patience == 0
      ensures dev.Valid()
      ensures r.Some? ==> dev.m.phase == Finished && dev.m.res == r.value
    {
      hide Step, Replay;
      var due := dev.now + cfg.settle;
      ghost var was;
      while true
        invariant dev.Valid() && dev.m.phase == Settling(due) && dev.m.res == res
        decreases dev.patience
      {
        was := dev.m;
        var pick :- dev.Select(due, false);
        StepInSettling(dev.task, was, Entry(dev.now, ActOf(pick)), due);
        match pick
        case Frame(st) =>
          if st.kind == TYPE_PHASE_CHANGE && st.phase == 0x00 {
            break;
          }
        case Hung => break;
        case TimedOut => break;
      }
      was := dev.m;
      var _ :- dev.Tell(StateMinus);
      StepInShort(dev.task, was, Entry(dev.now, StateMinus));
      return Some(res.(outcome := Printed, muted := false));
    }

    lemma AfterOverdue(t: Task, m: Machine, late: nat, answered: bool, reply: seq<Problem>)
      requires m.res.completed < t.job.pages
      ensures var done := m.res.completed + late; var r := Inquired(t, m, Overdue, late, answered, reply);
        && r.res == m.res.(completed := if done < t.job.pages then done else t.job.pages)
        && r.phase == if done >= t.job.pages then Settling(m.now + t.cfg.settle)
                      else Failing(if reply != [] then reply else Lone(NoCompletion), true)
    {
    }

    /** What became of the job in one turn of the wait: it goes on, or it has ended. */
    method OnOverdue(dev: Port, pages: nat, soFar: Result) returns (r: Option<Result>, ended: bool)
      requires dev.Valid() && dev.task.cfg == cfg && dev.task.job.pages == pages
      requires dev.m.phase == Inquiring(Overdue) && dev.m.res == soFar && soFar.reasons == [] && soFar.completed < pages
      modifies dev
      ensures r.None? ==> dev.patience == 0
      ensures dev.Valid() && (r.Some? && !ended ==> dev.patience <= old(dev.patience))
      ensures r.Some? ==> dev.m.res == r.value
      ensures r.Some? && ended ==> dev.m.phase == Finished
      ensures r.Some? && !ended ==>
        dev.m.phase == Settling(dev.now + cfg.settle) && r.value.completed == pages && r.value.reasons == []
    {
      hide Step, Replay, Problems;
      ended := true;
      var res := soFar;
      ghost var was := dev.m;
      var pr :- ProbePrinter(dev, Overdue);
      AfterOverdue(dev.task, LaterAfter(was, dev.m), pr.completed, pr.answered,
        if pr.answered then Problems(pr.reply.value) else []);
      hide Inquired;
      var done := res.completed + pr.completed;
      res := res.(completed := if done < pages then done else pages);
      if res.completed == pages {
        return Some(res), false;
      }
      if pr.answered {
        var ps := ListProblems(pr.reply.value);
        if |ps| > 0 {
          r := FailAndAbort(dev, res, ps);
          return;
        }
      }
      r := FailAndAbort(dev, res, [Problem(NoCompletion, "other-error")]);
    }

    /** Where a frame leads that does not complete a label. */
    function FrameEnds(st: Status): Phase {
      if st.kind == TYPE_ERROR_OCCURRED then
        Resetting(ThenInquire(if Problems(st) == [] then Lone(UnexplainedError) else Problems(st)))
      else if st.kind == TYPE_TURNED_OFF then Failing(Lone(PoweredOff), true)
      else Resetting(ThenInquire(Problems(st)))
    }

    lemma FrameTurn(t: Task, m: Machine, due: nat, st: Status)
      ensures st.kind == TYPE_PRINTING_COMPLETED ==> (var r := LabelFrame(t, m, due, st);
        && r.res == m.res.(completed := m.res.completed + 1)
        && r.phase == if r.res.completed < t.job.pages then Waiting(true, m.now + t.cfg.perPage)
                      else Settling(m.now + t.cfg.settle))
      ensures st.kind != TYPE_PRINTING_COMPLETED ==> LabelFrame(t, m, due, st).res == m.res
      ensures st.kind == TYPE_NOTIFICATION ==> (LabelFrame(t, m, due, st).phase ==
        Waiting(true, if st.notification == COOLING_STARTED then m.now + t.cfg.cooling
                      else if st.notification == COOLING_FINISHED then m.now + t.cfg.perPage else due))
      ensures st.kind != TYPE_PRINTING_COMPLETED && st.kind != TYPE_NOTIFICATION ==> (LabelFrame(t, m, due, st).phase ==
        if st.kind == TYPE_ERROR_OCCURRED || st.kind == TYPE_TURNED_OFF || Problems(st) != [] then FrameEnds(st)
        else Waiting(true, due))
    {
      hide Problems;
    }

    /** A frame that ends the job. */
    method OnFrame(dev: Port, st: Status, res: Result) returns (r: Option<Result>)
      requires dev.Valid() && dev.task.cfg == cfg && dev.m.res == res && res.reasons == []
      requires dev.m.phase == FrameEnds(st)
      modifies dev
      ensures r.None? ==> dev.patience == 0
      ensures dev.Valid()
      ensures r.Some? ==> dev.m.phase == Finished && dev.m.res == r.value
    {
      if st.kind == TYPE_ERROR_OCCURRED {
        var ps := ListProblems(st);
        if |ps| == 0 {
          ps := [Problem(UnexplainedError, "other-error")];
        }
        r := FailMidJob(dev, res, ps);
      } else if st.kind == TYPE_TURNED_OFF {
        r := FailAndAbort(dev, res, [Problem(PoweredOff, "other-error")]);
      } else {
        var ps := ListProblems(st);
        r := FailMidJob(dev, res, ps);
      }
    }

    /**
     A frame that comes while labels are outstanding: it completes one, moves the timer, ends the
     job or means nothing.
     */
    method TakeFrame(dev: Port, pages: nat, ghost was: Machine, soFar: Result, st: Status, due: nat)
      returns (r: Option<Turn>)
      requires dev.Valid() && dev.task.cfg == cfg && dev.task.job.pages == pages
      requires was.res == soFar && soFar.reasons == [] && soFar.completed < pages && was.now == dev.now
      requires dev.m == LabelFrame(dev.task, was, due, st)
      modifies dev
      ensures r.None? ==> dev.patience == 0
      ensures dev.Valid()
      ensures r.Some? ==> dev.m.res == r.value.res
      ensures r.Some? && r.value.Over? ==> dev.m.phase == Finished
      ensures r.Some? && r.value.GoesOn? ==> unchanged(dev) && r.value.res.reasons == []
      ensures r.Some? && r.value.GoesOn? ==> (dev.m.phase ==
        if r.value.res.completed < pages then Waiting(r.value.heard, r.value.due) else Settling(dev.now + cfg.settle))
    {
      FrameTurn(dev.task, was, due, st);
      hide Step, Replay, Problems, LabelFrame, FrameEnds;
      if st.kind == TYPE_PRINTING_COMPLETED {
        return Some(GoesOn(soFar.(completed := soFar.completed + 1), true, dev.now + cfg.perPage));
      } else if st.kind == TYPE_NOTIFICATION {
        var again := due;
        if st.notification == COOLING_STARTED {
          again := dev.now + cfg.cooling;
        } else if st.notification == COOLING_FINISHED {
          again := dev.now + cfg.perPage;
        }
        return Some(GoesOn(soFar, true, again));
      }
      var ps := ListProblems(st);
      if st.kind == TYPE_ERROR_OCCURRED || st.kind == TYPE_TURNED_OFF || |ps| > 0 {
        var failed :- OnFrame(dev, st, soFar);
        return Some(Over(failed));
      }
      return Some(GoesOn(soFar, true, due));
    }

    /** One turn of the wait for a label: one select, and what it leads to. */
    method AwaitTurn(dev: Port, pages: nat, soFar: Result, heard: bool, due: nat) returns (r: Option<Turn>)
      requires dev.Valid() && dev.task.cfg == cfg && dev.task.job.pages == pages
      requires dev.m.res == soFar && soFar.reasons == [] && soFar.completed < pages
      requires dev.m.phase == Waiting(heard, due)
      modifies dev
      ensures r.None? ==> dev.patience == 0
      ensures dev.Valid()
      ensures r.Some? ==> dev.m.res == r.value.res
      ensures r.Some? && r.value.Over? ==> dev.m.phase == Finished
      ensures r.Some? && r.value.GoesOn? ==> dev.patience < old(dev.patience) && r.value.res.reasons == []
      ensures r.Some? && r.value.GoesOn? ==> (dev.m.phase ==
        if r.value.res.completed < pages then Waiting(r.value.heard, r.value.due) else Settling(dev.now + cfg.settle))
    {
      hide Step, Replay, Problems, LabelFrame, FrameEnds, AwaitLabels;
      var pick :- dev.Select(due, true);
      StepInWaiting(dev.task, old(dev.m), Entry(dev.now, ActOf(pick)), heard, due);
      match pick
      case Hung =>
        var lost :- FailAndAbort(dev, soFar, [Problem(Disconnected, "other-error")]);
        return Some(Over(lost));
      case CtxDone =>
        var dropped :- Cancel(dev, soFar);
        return Some(Over(dropped));
      case TimedOut =>
        if soFar.muted && !heard {
          return Some(Over(soFar.(outcome := Unconfirmed)));
        }
        var late, ended := OnOverdue(dev, pages, soFar);
        var res :- late;
        return Some(if ended then Over(res) else GoesOn(res, heard, due));
      case Frame(st) =>
        r := TakeFrame(dev, pages, Tick(old(dev.m), Entry(dev.now, Got(st))), soFar, st, due);
    }

    /** Turn after turn until the last label is reported, or the job has ended otherwise. */
    method WaitForLabels(dev: Port, pages: nat, sent: Result) returns (r: Option<Result>)
      requires dev.Valid() && dev.task.cfg == cfg && dev.task.job.pages == pages
      requires dev.m.res == sent && sent.reasons == []
      requires dev.m.phase ==
        if sent.completed < pages then Waiting(false, dev.now + cfg.perPage) else Settling(dev.now + cfg.settle)
      modifies dev
      ensures r.None? ==> dev.patience == 0
      ensures dev.Valid()
      ensures r.Some? ==> dev.m.phase == Finished && dev.m.res == r.value
    {
      var res := sent;
      var heard := false;
      var due: nat := dev.now + cfg.perPage;
      while res.completed < pages
        invariant dev.Valid() && dev.m.res == res && res.reasons == []
        invariant dev.m.phase == if res.completed < pages then Waiting(heard, due) else Settling(dev.now + cfg.settle)
        decreases dev.patience
      {
        var turn :- AwaitTurn(dev, pages, res, heard, due);
        if turn.Over? {
          return Some(turn.res);
        }
        res, heard, due := turn.res, turn.heard, turn.due;
      }
      r := Settle(dev, res);
    }

    /** The reply before sending: what the printer objects to in this job. */
    method CheckReply(st: Status, job: Job, ghost data: seq<byte>) returns (ps: seq<Problem>)
      ensures ps == Objections(Task(cfg, job, data), st)
    {
      ps := ListProblems(st);
      if !job.media.known {
        ps := DropProblems(ps, "media-needed-error");
      }
      if |ps| > 0 {
        return;
      }
      if MediaMismatch(st, job.media) {
        return [Problem(WrongRoll, "media-needed-error")];
      }
    }

    method DropProblems(ps: seq<Problem>, reason: Reason) returns (out: seq<Problem>)
      ensures out == DropReason(ps, reason)
    {
      out := [];
      for i := 0 to |ps|
        invariant out == DropReason(ps[..i], reason)
      {
        assert ps[..i + 1][..i] == ps[..i];
        if ps[i].reason != reason {
          out := out + [ps[i]];
        }
      }
      assert ps[..|ps|] == ps;
    }

    /** A black-only job goes to a red/black roll in two colours, if it can be rewritten. */
    method ChooseLoad(st: Status, job: Job, data: seq<byte>) returns (load: seq<byte>)
      ensures load == LoadFor(Task(cfg, job, data), st)
    {
      load := data;
      if TwoColorRoll(st) && !job.twoColor {
        var two := ToTwoColor(data);
        if two.Rewritten? {
          load := two.data;
        }
      }
    }

    /**
     The whole of a job. What passed between the backend and the world is a run of the
     machine that ends in the result returned.
     */
    method Send(dev: Port, job: Job, data: seq<byte>) returns (r: Option<Result>)
      requires dev.Valid() && Serves(dev, job, data) && dev.log == []
      modifies dev
      ensures r.None? ==> dev.patience == 0
      ensures dev.Valid() && dev.m == Replay(Task(cfg, job, data), dev.log) && dev.m.phase != Lost
      ensures r.Some? ==> dev.m.phase == Finished && dev.m.res == r.value
    {
      hide Step, Objections, LoadFor, CmdReset;
      ghost var t := dev.task;
      var res := Result(Undecided, [], job.pages, 0, false);
      var _ :- DrainFor(dev, 150, 1000, ThenOpen);
      var first :- CheckFirst(dev);
      var load := data;
      match first {
        case NotSent =>
          r := FailProblems(dev, res, [Problem(CannotSend, "other-error")], false);
          return;
        case Replied(st) =>
          var ps := CheckReply(st, job, data);
          if |ps| > 0 {
            r := FailProblems(dev, res, ps, false);
            return;
          }
          load := ChooseLoad(st, job, data);
        case Silent =>
          res := res.(muted := true);
      }
      r := Deliver(dev, job, load, res);
    }

    /** What follows the exchange: the chunks, and the wait or what ends it early. */
    method Deliver(dev: Port, job: Job, load: seq<byte>, res: Result) returns (r: Option<Result>)
      requires dev.Valid() && dev.task.cfg == cfg && dev.task.job == job
      requires dev.m.res == res && res.reasons == [] && dev.m.chunks == 0 && dev.m.load == load
      requires dev.m.phase == SendJob(dev.task, dev.m, load).phase
      modifies dev
      ensures r.None? ==> dev.patience == 0
      ensures dev.Valid()
      ensures r.Some? ==> dev.m.phase == Finished && dev.m.res == r.value
    {
      hide Step, Replay;
      var taken :- WriteJob(dev, load);
      if !taken {
        ghost var was := dev.m;
        var done :- dev.Look();
        StepInShort(dev.task, was, Entry(dev.now, Looked(done)));
        if done {
          r := Cancel(dev, res);
        } else {
          r := FailAndAbort(dev, res, [Problem(NotAccepted, "other-error")]);
        }
        return;
      }
      r := WaitForLabels(dev, job.pages, res);
    }
  }
}
