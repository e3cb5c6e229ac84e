/** Unconfirmed, and what the printer has answered by then. */
module SendAnswers {
  import opened Bytes
  import opened TwoColor
  import opened Reset
  import opened PrinterStatus
  import opened SendProtocol
  import opened SendLaws
  import opened SendVerdicts

  /** The replies in a log to what was written before them. */
  function Answers(log: seq<Entry>): nat {
    if log == [] then 0
    else
      var front, a := log[..|log| - 1], log[|log| - 1].act;
      Answers(front) + if a.Got? && IsReply(a.st) && Writes(front) != [] then 1 else 0
  }

  /** Phases of a run in which every reply so far was to a status request before the job. */
  predicate Quiet(m: Machine) {
    || BeforeOpening(m.phase) || m.phase.Asking? || m.phase.Resting? || m.phase.Reasking?
    || m.phase.Sending? || m.phase.Chunking? || (m.phase.Waiting? && !m.phase.heard)
    || (m.phase == Finished && m.res.outcome == Unconfirmed)
  }

  /** The replies are counted. */
  predicate QuietOn(m: Machine, r: Machine, a: Act) {
    var answer := a.Got? && IsReply(a.st) && !BeforeOpening(m.phase);
    Quiet(r) ==> Quiet(m) && r.replies == m.replies + if answer then 1 else 0
  }

  lemma QuietAsks(t: Task, m: Machine, a: Act)
    requires Shape(t, m) && Asks(m.phase)
    ensures QuietOn(m, Advance(t, m, a), a)
  {
    hide Problems, Convert, Objections, LoadFor, CmdReset, OpeningBytes, Chunk, ReasonList, IsReply, Busy;
  }

  lemma QuietSends(t: Task, m: Machine, a: Act)
    requires Sends(m.phase)
    ensures QuietOn(m, Advance(t, m, a), a)
  {
    hide Problems, Convert, Objections, LoadFor, CmdReset, OpeningBytes, Chunk, ReasonList, IsReply;
  }

  lemma QuietInquires(t: Task, m: Machine, a: Act)
    requires Inquires(m.phase)
    ensures !Quiet(Advance(t, m, a))
  {
    hide Problems, Convert, Objections, LoadFor, CmdReset, OpeningBytes, Chunk, ReasonList;
  }

  lemma QuietEnds(t: Task, m: Machine, a: Act)
    requires Shape(t, m) && Ends(m.phase)
    ensures !Quiet(Advance(t, m, a))
  {
    hide Problems, Convert, Objections, LoadFor, CmdReset, OpeningBytes, Chunk, ReasonList;
  }

  lemma QuietStep(t: Task, m: Machine, e: Entry)
    requires Shape(t, m) && Step(t, m, e).phase != Lost
    ensures QuietOn(m, Step(t, m, e), e.act)
  {
    var n := Tick(m, e);
    assert Shape(t, n) && Quiet(n) == Quiet(m);
    hide Advance, Quiet, Shape;
    if Asks(m.phase) {
      QuietAsks(t, n, e.act);
    } else if Sends(m.phase) {
      QuietSends(t, n, e.act);
    } else if Inquires(m.phase) {
      QuietInquires(t, n, e.act);
    } else {
      QuietEnds(t, n, e.act);
    }
  }

  lemma NothingWritten(t: Task, log: seq<Entry>)
    requires Replay(t, log).phase != Lost
    ensures Writes(log) == [] <==> BeforeOpening(Replay(t, log).phase)
  {
    hide Replay, OpeningBytes, Chunk;
    TraceOfRun(t, log);
  }

  lemma {:induction false} AnswersAreReplies(t: Task, log: seq<Entry>)
    requires Replay(t, log).phase != Lost
    ensures Quiet(Replay(t, log)) ==> Answers(log) == Replay(t, log).replies
    decreases |log|
  {
    if log != [] {
      var front, e := log[..|log| - 1], log[|log| - 1];
      hide Step, Shape, Quiet, IsReply, Writes;
      LostStays(t, Replay(t, front), e);
      AnswersAreReplies(t, front);
      TraceOfRun(t, front);
      NothingWritten(t, front);
      QuietStep(t, Replay(t, front), e);
    }
  }

  /** The run has ended as unconfirmed. */
  predicate EndsUnconfirmed(t: Task, log: seq<Entry>) {
    Replay(t, log).phase == Finished && Replay(t, log).res.outcome == Unconfirmed
  }

  /** Without another request there was no answer. */
  lemma AnswersAreRequests(t: Task, log: seq<Entry>)
    requires EndsUnconfirmed(t, log)
    ensures Answers(log) == Replay(t, log).asks <= t.cfg.busyRetries
  {
    hide Replay;
    AnswersAreReplies(t, log);
    VerdictIsSound(t, log);
    WriteGrammar(t, log);
  }

  // ----- A printer that answers once -----

  const BUSY: Status := Status(0x10, 0, 62, 0x0A, 0, TYPE_REPLY, 0, 0, 1)

  lemma BusyIsBusy()
    ensures Busy(BUSY) && IsReply(BUSY)
  {
    assert HasBit(0x10, 4) == HasBit(0x08, 3) == HasBit(0x04, 2) == HasBit(0x02, 1) == HasBit(0x01, 0);
  }

  lemma BusyAnswer(t: Task) returns (log: seq<Entry>)
    requires t.cfg.busyRetries > 0
    ensures Replay(t, log) == Start(t).(phase := Resting(0, 1150), now := 150, count := 3, replies := 1)
  {
    hide CmdReset, Convert, Busy, IsReply;
    BusyIsBusy();
    log := [];
    var m := Start(t);
    log, m := Next(t, log, Entry(150, Expired));
    assert m == Start(t).(phase := Opening, now := 150, count := 1);
    log, m := Next(t, log, Entry(150, Wrote(OpeningBytes(), true)));
    assert m == Start(t).(phase := Asking(0, 150 + t.cfg.preflight), now := 150, count := 2);
    log, m := Next(t, log, Entry(150, Got(BUSY)));
  }

  lemma ThenSilence(t: Task, front: seq<Entry>) returns (log: seq<Entry>, m: Machine)
    requires Replay(t, front) == Start(t).(phase := Resting(0, 1150), now := 150, count := 3, replies := 1)
    ensures m == Replay(t, log) && m.replies == 1 && m.res == Result(Undecided, [], t.job.pages, 0, true)
    ensures m.phase == if t.data != [] then Phase.Sending
                       else if t.job.pages > 0 then Waiting(false, m.now + t.cfg.perPage)
                       else Settling(m.now + t.cfg.settle)
    ensures m.load == t.data && m.chunks == 0
  {
    hide CmdReset, Convert, Replay;
    log, m := Next(t, front, Entry(1150, Slept));
    assert m == Start(t).(phase := Reasking(0), now := 1150, count := 4, replies := 1);
    log, m := Next(t, log, Entry(1150, Wrote(STATUS_REQUEST, true)));
    assert m == Start(t).(phase := Asking(1, 1150 + t.cfg.preflight), now := 1150, count := 5, replies := 1, asks := 1);
    var e := Entry(1150 + t.cfg.preflight, Expired);
    Unheard(t, m, e);
    hide Step;
    log, m := Next(t, log, e);
  }

  lemma Unheard(t: Task, m: Machine, e: Entry)
    requires m ==
             Start(t).(phase := Asking(1, 1150 + t.cfg.preflight), now := 1150, count := 5, replies := 1, asks := 1)
    requires e == Entry(1150 + t.cfg.preflight, Expired)
    ensures var r := Step(t, m, e);
      && r.replies == 1 && r.res == Result(Undecided, [], t.job.pages, 0, true) && r.load == t.data && r.chunks == 0
      && r.phase == if t.data != [] then Phase.Sending
                    else if t.job.pages > 0 then Waiting(false, r.now + t.cfg.perPage)
                    else Settling(r.now + t.cfg.settle)
  {
    hide CmdReset, Convert;
  }

  /** What is left of the job is taken chunk by chunk. */
  lemma {:induction false} ThenTaken(t: Task, front: seq<Entry>) returns (log: seq<Entry>, m: Machine)
    requires var was := Replay(t, front);
      was.phase == Phase.Sending && was.chunks * CHUNK < |was.load| && was.res.completed < t.job.pages
    ensures m == Replay(t, log) && m.res == Replay(t, front).res && m.replies == Replay(t, front).replies
    ensures m.phase == Waiting(false, m.now + t.cfg.perPage)
    decreases |Replay(t, front).load| - Replay(t, front).chunks * CHUNK
  {
    hide Replay, Chunk;
    var was := Replay(t, front);
    log, m := Next(t, front, Entry(was.now, Looked(false)));
    log, m := Next(t, log, Entry(was.now, Wrote(Chunk(was.load, was.chunks), true)));
    if (was.chunks + 1) * CHUNK < |was.load| {
      log, m := ThenTaken(t, log);
    }
  }

  lemma NeverHeard(t: Task, m: Machine, e: Entry)
    requires m.phase == Waiting(false, m.now + t.cfg.perPage) && m.res.muted
    requires e == Entry(m.now + t.cfg.perPage, Expired)
    ensures var r := Step(t, m, e);
      r.phase == Finished && r.res.outcome == Unconfirmed && r.replies == m.replies
  {
  }

  /**
   With a retry to go and a label to print, a printer that answers as busy once and then falls
   silent leaves the job unconfirmed.
   */
  lemma {:induction false} BusyThenSilent(t: Task) returns (log: seq<Entry>)
    requires t.cfg.busyRetries > 0 && t.job.pages > 0
    ensures EndsUnconfirmed(t, log) && Answers(log) == 1
  {
    var m;
    log := BusyAnswer(t);
    log, m := ThenSilence(t, log);
    hide Replay, Writes, Answers, Step;
    if t.data != [] {
      log, m := ThenTaken(t, log);
    }
    var e := Entry(m.now + t.cfg.perPage, Expired);
    NeverHeard(t, m, e);
    log, m := Next(t, log, e);
    AnswersAreReplies(t, log);
  }

  /**
   Unconfirmed is documented as the printer having answered nothing at all, before or after.
   For a job with a label to print that is so of every run if and only if the sender is
   configured to ask no busy printer again; as it is in production, it is not so.
   */
  lemma {:induction false} SilentFromTheStartIff(t: Task)
    requires t.job.pages > 0
    ensures (forall log | EndsUnconfirmed(t, log) :: Answers(log) == 0) <==> t.cfg.busyRetries == 0
  {
    hide EndsUnconfirmed, Answers;
    if t.cfg.busyRetries == 0 {
      forall log | EndsUnconfirmed(t, log) ensures Answers(log) == 0 {
        AnswersAreRequests(t, log);
      }
    } else {
      var log := BusyThenSilent(t);
    }
  }
}
