/**
 The print protocol as a state machine. A run of Send is a log of what passed between the
 backend and the world: writes, status frames, timers that ran out, looks at whether the
 job was canceled, lines for CUPS. Step says what each entry leads to and which entries
 are possible at all; Replay follows a whole log. Times are in milliseconds since Send began.
 */
module SendProtocol {
  import opened Bytes
  import opened JobParser
  import opened TwoColor
  import opened Reset
  import opened PrinterStatus

  datatype Outcome = Undecided | Printed | Failed | Unconfirmed | Canceled

  datatype Result = Result(outcome: Outcome, reasons: seq<Reason>, pages: nat, completed: nat, muted: bool)

  datatype Config = Config(preflight: nat, busyRetries: nat, perPage: nat, cooling: nat, settle: nat)

  const PRODUCTION := Config(2000, 5, 20000, 180000, 1500)

  /** What a run of Send is given. */
  datatype Task = Task(cfg: Config, job: Job, data: seq<byte>)

  const STATUS_REQUEST: seq<byte> := [0x1B, 0x69, 0x53]

  const CHUNK := 16384

  function OpeningBytes(): seq<byte> {
    CmdReset() + STATUS_REQUEST
  }

  /** The k-th piece a job is written in. */
  function Chunk(load: seq<byte>, k: nat): seq<byte> {
    if k * CHUNK >= |load| then []
    else if (k + 1) * CHUNK < |load| then load[k * CHUNK..(k + 1) * CHUNK]
    else load[k * CHUNK..]
  }

  // ----- The log -----

  datatype Act =
    | Wrote(bytes: seq<byte>, ok: bool)     // a write to the device was attempted
    | Got(st: Status)                       // a status frame was taken from the reader
    | Hangup                                // the reader has ended
    | Expired                               // a timer ran out
    | CancelSeen                            // the select took ctx.Done()
    | Looked(canceled: bool)                // ctx.Err() was asked
    | Slept
    | StatePlus(reasons: seq<Reason>)       // STATE: +...
    | StateMinus                            // STATE: -(all problem reasons)

  datatype Entry = Entry(at: nat, act: Act)

  // ----- The machine -----

  /** Where the run goes on once no frame has come for the idle time. */
  datatype Then = ThenOpen | ThenFinish | ThenInquire(ps: seq<Problem>)

  /** Why the printer is asked how it is: a label is overdue, or it stopped with these problems. */
  datatype Inquiry = Overdue | Stopped(ps: seq<Problem>)

  datatype Phase =
    | Draining(idle: nat, limit: nat, then_: Then)
    | Opening                                    // reset and status request are to be written
    | Asking(attempt: nat, due: nat)              // a reply is awaited
    | Resting(attempt: nat, until: nat)          // the printer was busy
    | Reasking(attempt: nat)
    | Sending                                    // the context is to be looked at
    | Chunking                                   // the next chunk is to be written
    | SendBroken                                 // why the write ended is to be found out
    | Waiting(heard: bool, due: nat)              // labels are outstanding
    | Inquiring(why: Inquiry)
    | Listening(why: Inquiry, late: nat, due: nat)
    | Settling(due: nat)
    | Clearing
    | Failing(ps: seq<Problem>, reset: bool)
    | Resetting(then_: Then)
    | Canceling
    | Finished
    | Lost

  /** What was written after the job, in order. */
  datatype After = Asked | Wiped

  datatype Machine = Machine(
    phase: Phase, res: Result, now: nat,
    load: seq<byte>,     // what is sent for the job
    chunks: nat,         // how many chunks of it were attempted
    asks: nat,           // status requests after the first, before the job
    replies: nat,        // replies to status requests, before the job
    after: seq<After>,   // writes after the job
    count: nat,          // entries so far
    mark: nat,           // entries when the job was out
    sentAt: nat, sentWriting: nat,   // the clock then, and the time spent in writes until then
    cooled: nat, resumed: nat,   // cooling notifications while waiting
    writing: nat)        // time spent in writes

  function Start(t: Task): Machine {
    Machine(Draining(150, 1000, ThenOpen), Result(Undecided, [], t.job.pages, 0, false),
            0, [], 0, 0, 0, [], 0, 0, 0, 0, 0, 0, 0)
  }

  function Lone(advice: Advice): seq<Problem> {
    [Problem(advice, "other-error")]
  }

  /** The reasons of a list of problems, each once, in order of first appearance. */
  function ReasonList(ps: seq<Problem>): seq<Reason> {
    if ps == [] then []
    else
      var front, r := ReasonList(ps[..|ps| - 1]), ps[|ps| - 1].reason;
      if r in front then front else front + [r]
  }

  function DropReason(ps: seq<Problem>, r: Reason): seq<Problem> {
    if ps == [] then []
    else DropReason(ps[..|ps| - 1], r) + if ps[|ps| - 1].reason == r then [] else [ps[|ps| - 1]]
  }

  /** The clock, the log's length and the time spent writing are the same. */
  predicate Keeps(was: Machine, now: Machine) {
    now.now == was.now && now.count == was.count && now.writing == was.writing
  }

  function Lose(m: Machine): (r: Machine)
    ensures Keeps(m, r)
  {
    m.(phase := Lost)
  }

  // Entering phases that may be left at once.

  function AwaitLabels(t: Task, m: Machine, heard: bool, due: nat): (r: Machine)
    ensures Keeps(m, r) && r.asks == m.asks && r.replies == m.replies && r.phase != Lost
  {
    if m.res.completed < t.job.pages then m.(phase := Waiting(heard, due))
    else m.(phase := Settling(m.now + t.cfg.settle))
  }

  /** The whole job is out. */
  function JobOut(t: Task, m: Machine): (r: Machine)
    ensures Keeps(m, r) && r.asks == m.asks && r.replies == m.replies && r.phase != Lost
  {
    AwaitLabels(t, m.(mark := m.count, sentAt := m.now, sentWriting := m.writing), false, m.now + t.cfg.perPage)
  }

  function SendJob(t: Task, m: Machine, load: seq<byte>): (r: Machine)
    ensures Keeps(m, r) && r.asks == m.asks && r.replies == m.replies && r.phase != Lost
  {
    var m := m.(load := load);
    if load == [] then JobOut(t, m) else m.(phase := Sending)
  }

  /** What the reply before sending is held against. */
  function Objections(t: Task, st: Status): seq<Problem> {
    var ps := if t.job.media.known then Problems(st) else DropReason(Problems(st), "media-needed-error");
    if ps != [] then ps
    else if MediaMismatch(st, t.job.media) then [Problem(WrongRoll, "media-needed-error")]
    else []
  }

  /** What is sent to a printer that has this roll. */
  function LoadFor(t: Task, st: Status): seq<byte> {
    if TwoColorRoll(st) && !t.job.twoColor && Convert(t.data).Rewritten? then Convert(t.data).data else t.data
  }

  function Answered(t: Task, m: Machine, st: Status): (r: Machine)
    ensures Keeps(m, r) && r.asks == m.asks && r.replies == m.replies && r.phase != Lost
  {
    var ps := Objections(t, st);
    if ps != [] then m.(phase := Failing(ps, false)) else SendJob(t, m, LoadFor(t, st))
  }

  function Unanswered(t: Task, m: Machine): (r: Machine)
    ensures Keeps(m, r) && r.asks == m.asks && r.replies == m.replies && r.phase != Lost
  {
    SendJob(t, m.(res := m.res.(muted := true)), t.data)
  }

  function Drained(t: Task, m: Machine, then_: Then): (r: Machine)
    ensures Keeps(m, r) && r.phase != Lost
  {
    match then_
    case ThenOpen => m.(phase := Opening)
    case ThenFinish => m.(phase := Finished)
    case ThenInquire(ps) => m.(phase := Inquiring(Stopped(ps)))
  }

  function Drain(t: Task, m: Machine, then_: Then): (r: Machine)
    ensures Keeps(m, r) && r.phase != Lost
  {
    m.(phase := Draining(m.now + t.cfg.settle / 3, m.now + 2 * t.cfg.settle, then_))
  }

  /** What the inquiry brought: late completions, and a reply or none. */
  function Inquired(t: Task, m: Machine, why: Inquiry, late: nat, answered: bool, reply: seq<Problem>): (r: Machine)
    ensures Keeps(m, r) && r.after == m.after && r.phase != Lost
  {
    match why
    case Stopped(ps) =>
      m.(phase := Failing(if answered then ps else ps + Lone(NotAnswering), false))
    case Overdue =>
      var done := m.res.completed + late;
      var m := m.(res := m.res.(completed := if done < t.job.pages then done else t.job.pages));
      if m.res.completed == t.job.pages then AwaitLabels(t, m, true, 0)
      else m.(phase := Failing(if reply != [] then reply else Lone(NoCompletion), true))
  }

  /** A frame that comes while labels are outstanding. */
  function LabelFrame(t: Task, m: Machine, due: nat, st: Status): (r: Machine)
    ensures Keeps(m, r) && r.phase != Lost
  {
    var ps := Problems(st);
    if st.kind == TYPE_PRINTING_COMPLETED then
      AwaitLabels(t, m.(res := m.res.(completed := m.res.completed + 1)), true, m.now + t.cfg.perPage)
    else if st.kind == TYPE_ERROR_OCCURRED then
      m.(phase := Resetting(ThenInquire(if ps == [] then Lone(UnexplainedError) else ps)))
    else if st.kind == TYPE_NOTIFICATION then
      if st.notification == COOLING_STARTED then
        m.(phase := Waiting(true, m.now + t.cfg.cooling), cooled := m.cooled + 1)
      else if st.notification == COOLING_FINISHED then
        m.(phase := Waiting(true, m.now + t.cfg.perPage), resumed := m.resumed + 1)
      else m.(phase := Waiting(true, due))
    else if st.kind == TYPE_TURNED_OFF then m.(phase := Failing(Lone(PoweredOff), true))
    else if ps != [] then m.(phase := Resetting(ThenInquire(ps)))
    else m.(phase := Waiting(true, due))
  }

  // ----- One step, by the phase it is taken in -----

  function StepDraining(t: Task, m: Machine, idle: nat, limit: nat, then_: Then, a: Act): (r: Machine)
    ensures Keeps(m, r)
  {
    match a
    case Got(_) => m.(phase := Draining(m.now + (if then_ == ThenOpen then 150 else t.cfg.settle / 3), limit, then_))
    case Hangup => Drained(t, m, then_)
    case Expired => if m.now >= idle || m.now >= limit then Drained(t, m, then_) else Lose(m)
    case _ => Lose(m)
  }

  function StepOpening(t: Task, m: Machine, a: Act): (r: Machine)
    ensures Keeps(m, r)
  {
    if a.Wrote? && a.bytes == OpeningBytes() then
      m.(phase := if a.ok then Asking(0, m.now + t.cfg.preflight) else Failing(Lone(CannotSend), false))
    else Lose(m)
  }

  function StepAsking(t: Task, m: Machine, attempt: nat, due: nat, a: Act): (r: Machine)
    ensures Keeps(m, r)
  {
    match a
    case Got(st) =>
      if !IsReply(st) then m
      else
        var m := m.(replies := m.replies + 1);
        if !Busy(st) || attempt >= t.cfg.busyRetries then Answered(t, m, st)
        else m.(phase := Resting(attempt, m.now + 1000))
    case Hangup => Unanswered(t, m)
    case Expired => if m.now >= due then Unanswered(t, m) else Lose(m)
    case _ => Lose(m)
  }

  function StepReasking(t: Task, m: Machine, attempt: nat, a: Act): (r: Machine)
    ensures Keeps(m, r)
  {
    if a.Wrote? && a.bytes == STATUS_REQUEST then
      m.(asks := m.asks + 1,
         phase := if a.ok then Asking(attempt + 1, m.now + t.cfg.preflight) else Failing(Lone(CannotSend), false))
    else Lose(m)
  }

  function StepChunking(t: Task, m: Machine, a: Act): (r: Machine)
    ensures Keeps(m, r)
  {
    if a.Wrote? && a.bytes == Chunk(m.load, m.chunks) then
      var m := m.(chunks := m.chunks + 1);
      if !a.ok then m.(phase := SendBroken)
      else if m.chunks * CHUNK >= |m.load| then JobOut(t, m)
      else m.(phase := Sending)
    else Lose(m)
  }

  function StepWaiting(t: Task, m: Machine, heard: bool, due: nat, a: Act): (r: Machine)
    ensures Keeps(m, r)
  {
    match a
    case Got(st) => LabelFrame(t, m, due, st)
    case Hangup => m.(phase := Failing(Lone(Disconnected), true))
    case CancelSeen => m.(phase := Canceling)
    case Expired =>
      if m.now < due then Lose(m)
      else if m.res.muted && !heard then m.(phase := Finished, res := m.res.(outcome := Unconfirmed))
      else m.(phase := Inquiring(Overdue))
    case _ => Lose(m)
  }

  function StepInquiring(t: Task, m: Machine, why: Inquiry, a: Act): (r: Machine)
    ensures Keeps(m, r)
  {
    if a.Wrote? && a.bytes == STATUS_REQUEST then
      var m := m.(after := m.after + [Asked]);
      if a.ok then m.(phase := Listening(why, 0, m.now + t.cfg.preflight)) else Inquired(t, m, why, 0, false, [])
    else Lose(m)
  }

  function StepListening(t: Task, m: Machine, why: Inquiry, late: nat, due: nat, a: Act): (r: Machine)
    ensures Keeps(m, r)
  {
    match a
    case Got(st) =>
      if st.kind == TYPE_PRINTING_COMPLETED then m.(phase := Listening(why, late + 1, due))
      else if IsReply(st) then Inquired(t, m, why, late, true, Problems(st))
      else m
    case Hangup => Inquired(t, m, why, late, false, [])
    case Expired => if m.now >= due then Inquired(t, m, why, late, false, []) else Lose(m)
    case _ => Lose(m)
  }

  function StepSettling(m: Machine, due: nat, a: Act): (r: Machine)
    ensures Keeps(m, r)
  {
    match a
    case Got(st) => if st.kind == TYPE_PHASE_CHANGE && st.phase == 0 then m.(phase := Clearing) else m
    case Hangup => m.(phase := Clearing)
    case Expired => if m.now >= due then m.(phase := Clearing) else Lose(m)
    case _ => Lose(m)
  }

  function StepFailing(m: Machine, ps: seq<Problem>, reset: bool, a: Act): (r: Machine)
    ensures Keeps(m, r)
  {
    if a == StatePlus(ReasonList(ps)) then
      m.(res := m.res.(outcome := Failed, reasons := ReasonList(ps)),
         phase := if reset then Resetting(ThenFinish) else Finished)
    else Lose(m)
  }

  function StepResetting(t: Task, m: Machine, then_: Then, a: Act): (r: Machine)
    ensures Keeps(m, r)
  {
    if a.Wrote? && a.bytes == CmdReset() then Drain(t, m.(after := m.after + [Wiped]), then_) else Lose(m)
  }

  function Advance(t: Task, m: Machine, a: Act): (r: Machine)
    ensures Keeps(m, r)
  {
    match m.phase
    case Draining(idle, limit, then_) => StepDraining(t, m, idle, limit, then_, a)
    case Opening => StepOpening(t, m, a)
    case Asking(attempt, due) => StepAsking(t, m, attempt, due, a)
    case Resting(attempt, until) =>
      if a.Slept? && m.now >= until then m.(phase := Reasking(attempt)) else Lose(m)
    case Reasking(attempt) => StepReasking(t, m, attempt, a)
    case Sending => if a.Looked? then m.(phase := if a.canceled then SendBroken else Chunking) else Lose(m)
    case Chunking => StepChunking(t, m, a)
    case SendBroken =>
      if a.Looked? then m.(phase := if a.canceled then Canceling else Failing(Lone(NotAccepted), true)) else Lose(m)
    case Waiting(heard, due) => StepWaiting(t, m, heard, due, a)
    case Inquiring(why) => StepInquiring(t, m, why, a)
    case Listening(why, late, due) => StepListening(t, m, why, late, due, a)
    case Settling(due) => StepSettling(m, due, a)
    case Clearing =>
      if a.StateMinus? then m.(phase := Finished, res := m.res.(outcome := Printed, muted := false)) else Lose(m)
    case Failing(ps, reset) => StepFailing(m, ps, reset, a)
    case Resetting(then_) => StepResetting(t, m, then_, a)
    case Canceling =>
      if a.Wrote? && a.bytes == CmdReset() then
        m.(phase := Finished, res := m.res.(outcome := Canceled), after := m.after + [Wiped])
      else Lose(m)
    case Finished => Lose(m)
    case Lost => m
  }

  /** The clock moves on to the entry. */
  function Tick(m: Machine, e: Entry): Machine
    requires e.at >= m.now
  {
    m.(now := e.at, count := m.count + 1, writing := m.writing + if e.act.Wrote? then e.at - m.now else 0)
  }

  /** The clock moves on to the entry, and the entry is taken. */
  function Step(t: Task, m: Machine, e: Entry): (r: Machine)
    ensures e.at >= m.now ==> r.now == e.at && r.count == m.count + 1
  {
    if e.at < m.now then Lose(m) else Advance(t, Tick(m, e), e.act)
  }

  function Replay(t: Task, log: seq<Entry>): Machine {
    if log == [] then Start(t) else Step(t, Replay(t, log[..|log| - 1]), log[|log| - 1])
  }

  lemma ReplayMore(t: Task, log: seq<Entry>, e: Entry)
    ensures Replay(t, log + [e]) == Step(t, Replay(t, log), e)
  {
    assert (log + [e])[..|log|] == log;
  }
}
