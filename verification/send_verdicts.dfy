/** Verdicts: what the outcome of a run says about what the printer reported. */
module SendVerdicts {
  import opened JobParser
  import opened TwoColor
  import opened Reset
  import opened PrinterStatus
  import opened SendProtocol
  import opened SendLaws

  predicate IsCompletion(e: Entry) {
    e.act.Got? && e.act.st.kind == TYPE_PRINTING_COMPLETED
  }

  /** The "printing completed" frames in a log. */
  function Completions(log: seq<Entry>): nat {
    if log == [] then 0 else Completions(log[..|log| - 1]) + if IsCompletion(log[|log| - 1]) then 1 else 0
  }

  /** All status frames in a log. */
  function Frames(log: seq<Entry>): nat {
    if log == [] then 0 else Frames(log[..|log| - 1]) + if log[|log| - 1].act.Got? then 1 else 0
  }

  /** What of the log came after the job was out. */
  function SinceSent(m: Machine, log: seq<Entry>): seq<Entry>
    requires m.mark <= |log|
  {
    log[m.mark..]
  }

  predicate Early(p: Phase) {
    BeforeOpening(p) || p.Asking? || p.Resting? || p.Reasking? || p.Sending? || p.Chunking? || p.SendBroken?
  }

  /** The counters against the frames: c completions and f frames since the job was out. */
  predicate Tally(t: Task, m: Machine, c: nat, f: nat) {
    && m.res.pages == t.job.pages
    && c <= f && m.res.completed <= c && m.res.completed <= t.job.pages
    && (m.res.muted ==> m.replies == m.asks)
    && (Early(m.phase) ==> m.res.completed == 0)
    && match m.phase
       case Draining(_, _, ThenOpen) => !m.res.muted && m.replies == 0 && m.asks == 0
       case Opening => !m.res.muted && m.replies == 0 && m.asks == 0
       case Asking(k, _) => !m.res.muted && m.replies == m.asks
       case Resting(_, _) => !m.res.muted && m.replies == m.asks + 1
       case Reasking(_) => !m.res.muted && m.replies == m.asks + 1
       case Waiting(heard, _) => m.res.completed < t.job.pages && (!heard ==> f == 0)
       case Listening(Overdue, late, _) => m.res.completed < t.job.pages && m.res.completed + late <= c
       case Settling(_) => m.res.completed == t.job.pages
       case Clearing => m.res.completed == t.job.pages
       case Finished =>
         (match m.res.outcome
          case Printed => m.res.completed == t.job.pages && !m.res.muted
          case Unconfirmed => m.res.muted && f == 0 && m.res.completed < t.job.pages
          case _ => t.job.pages == 0 || m.res.completed < t.job.pages)
       case Draining(_, _, ThenInquire(_)) => m.res.completed < t.job.pages
       case Resetting(ThenInquire(_)) => m.res.completed < t.job.pages
       case Draining(_, _, _) => t.job.pages == 0 || m.res.completed < t.job.pages
       case Sending => true
       case Chunking => true
       case SendBroken => true
       case Inquiring(_) => m.res.completed < t.job.pages
       case Listening(_, _, _) => m.res.completed < t.job.pages
       case Failing(_, _) => t.job.pages == 0 || m.res.completed < t.job.pages
       case Resetting(_) => t.job.pages == 0 || m.res.completed < t.job.pages
       case Canceling => t.job.pages == 0 || m.res.completed < t.job.pages
       case Lost => true
  }

  /** The number after one more entry: it starts again when the job is out. */
  function Recount(r: Machine, n: nat, hit: bool): nat {
    if r.mark == r.count then 0 else n + if hit then 1 else 0
  }

  predicate TallyAfter(t: Task, m: Machine, r: Machine, e: Entry, c: nat, f: nat) {
    Tally(t, r, Recount(r, c, IsCompletion(e)), Recount(r, f, e.act.Got?)) && r.mark <= r.count
  }

  lemma TallyAsking(t: Task, m: Machine, e: Entry, c: nat, f: nat)
    requires Tally(t, m, c, f) && Shape(t, m) && m.mark < m.count && m.phase.Asking?
    ensures Advance(t, m, e.act).phase == Lost || TallyAfter(t, m, Advance(t, m, e.act), e, c, f)
  {
    hide Problems, Convert, Objections, LoadFor, CmdReset, OpeningBytes, Chunk, ReasonList;
  }

  lemma TallyAsks(t: Task, m: Machine, e: Entry, c: nat, f: nat)
    requires Tally(t, m, c, f) && Shape(t, m) && m.mark < m.count && Asks(m.phase) && !m.phase.Asking?
    ensures Advance(t, m, e.act).phase == Lost || TallyAfter(t, m, Advance(t, m, e.act), e, c, f)
  {
    hide Problems, Convert, Objections, LoadFor, CmdReset, OpeningBytes, Chunk, ReasonList;
  }

  lemma TallyWaiting(t: Task, m: Machine, e: Entry, c: nat, f: nat)
    requires Tally(t, m, c, f) && m.mark < m.count && m.phase.Waiting?
    ensures Advance(t, m, e.act).phase == Lost || TallyAfter(t, m, Advance(t, m, e.act), e, c, f)
  {
    hide Problems, Convert, Objections, LoadFor, CmdReset, OpeningBytes, Chunk, ReasonList;
  }

  lemma TallySends(t: Task, m: Machine, e: Entry, c: nat, f: nat)
    requires Tally(t, m, c, f) && m.mark < m.count && Sends(m.phase) && !m.phase.Waiting?
    ensures Advance(t, m, e.act).phase == Lost || TallyAfter(t, m, Advance(t, m, e.act), e, c, f)
  {
    hide Problems, Convert, Objections, LoadFor, CmdReset, OpeningBytes, Chunk, ReasonList;
  }

  lemma TallyInquires(t: Task, m: Machine, e: Entry, c: nat, f: nat)
    requires Tally(t, m, c, f) && m.mark < m.count && Inquires(m.phase)
    ensures Advance(t, m, e.act).phase == Lost || TallyAfter(t, m, Advance(t, m, e.act), e, c, f)
  {
    hide Problems, Convert, Objections, LoadFor, CmdReset, OpeningBytes, Chunk, ReasonList;
  }

  lemma TallySettling(t: Task, m: Machine, e: Entry, c: nat, f: nat)
    requires Tally(t, m, c, f) && m.mark < m.count && (m.phase.Settling? || m.phase.Clearing?)
    ensures Advance(t, m, e.act).phase == Lost || TallyAfter(t, m, Advance(t, m, e.act), e, c, f)
  {
    hide Problems, Convert, Objections, LoadFor, CmdReset, OpeningBytes, Chunk, ReasonList;
  }

  lemma TallyEnds(t: Task, m: Machine, e: Entry, c: nat, f: nat)
    requires Tally(t, m, c, f) && Shape(t, m) && m.mark < m.count
    requires Ends(m.phase) && !m.phase.Settling? && !m.phase.Clearing?
    ensures Advance(t, m, e.act).phase == Lost || TallyAfter(t, m, Advance(t, m, e.act), e, c, f)
  {
    hide Problems, Convert, Objections, LoadFor, CmdReset, OpeningBytes, Chunk, ReasonList;
  }

  lemma StepTally(t: Task, m: Machine, e: Entry, c: nat, f: nat)
    requires Tally(t, m, c, f) && Shape(t, m) && m.mark <= m.count && Step(t, m, e).phase != Lost
    ensures TallyAfter(t, m, Step(t, m, e), e, c, f)
  {
    var n := Tick(m, e);
    assert Tally(t, n, c, f) && Shape(t, n);
    hide Advance, Shape, Tally, TallyAfter;
    if m.phase.Asking? {
      TallyAsking(t, n, e, c, f);
    } else if m.phase.Waiting? {
      TallyWaiting(t, n, e, c, f);
    } else if Asks(m.phase) {
      TallyAsks(t, n, e, c, f);
    } else if Sends(m.phase) {
      TallySends(t, n, e, c, f);
    } else if Inquires(m.phase) {
      TallyInquires(t, n, e, c, f);
    } else if m.phase.Settling? || m.phase.Clearing? {
      TallySettling(t, n, e, c, f);
    } else {
      TallyEnds(t, n, e, c, f);
    }
  }

  lemma CountMore(log: seq<Entry>, e: Entry, k: nat)
    requires k <= |log|
    ensures Completions((log + [e])[k..]) == Completions(log[k..]) + if IsCompletion(e) then 1 else 0
    ensures Frames((log + [e])[k..]) == Frames(log[k..]) + if e.act.Got? then 1 else 0
  {
    assert (log + [e])[k..] == log[k..] + [e];
    assert (log[k..] + [e])[..|log[k..]|] == log[k..];
  }

  /** The counters of the machine against the frames of the log it has followed. */
  predicate Counted(t: Task, log: seq<Entry>) {
    var m := Replay(t, log);
    m.count == |log| && m.mark <= |log| && Tally(t, m, Completions(SinceSent(m, log)), Frames(SinceSent(m, log)))
  }

  lemma {:induction false} TallyOfRun(t: Task, log: seq<Entry>)
    requires Replay(t, log).phase != Lost
    ensures Counted(t, log)
    decreases |log|
  {
    hide Step, Shape, Counted, Start;
    if log == [] {
      CountedNone(t);
    } else {
      var front, e := log[..|log| - 1], log[|log| - 1];
      LostStays(t, Replay(t, front), e);
      TallyOfRun(t, front);
      TraceOfRun(t, front);
      CountedMore(t, front, e);
      assert log == front + [e];
    }
  }

  lemma CountedNone(t: Task)
    ensures Counted(t, [])
  {
    assert SinceSent(Start(t), []) == [];
  }

  lemma CountedMore(t: Task, log: seq<Entry>, e: Entry)
    requires Counted(t, log) && Shape(t, Replay(t, log)) && Step(t, Replay(t, log), e).phase != Lost
    ensures Counted(t, log + [e])
  {
    ReplayMore(t, log, e);
    hide Step, Shape, Tally, Replay;
    var m := Replay(t, log);
    var r := Step(t, m, e);
    StepCounts(t, m, e);
    StepMarks(t, m, e);
    StepTally(t, m, e, Completions(SinceSent(m, log)), Frames(SinceSent(m, log)));
    if r.mark <= |log| {
      CountMore(log, e, m.mark);
    } else {
      assert SinceSent(r, log + [e]) == [];
    }
  }

  lemma StepCounts(t: Task, m: Machine, e: Entry)
    requires Step(t, m, e).phase != Lost
    ensures Step(t, m, e).count == m.count + 1
  {
    hide Advance;
  }

  predicate MarksOnce(m: Machine, r: Machine) {
    || r.phase == Lost
    || r.mark == m.mark
    || (r.mark == m.count && Early(m.phase) && (r.phase.Waiting? || r.phase.Settling?))
  }

  lemma MarksAsking(t: Task, m: Machine, a: Act)
    requires m.phase.Asking?
    ensures MarksOnce(m, Advance(t, m, a))
  {
    hide Problems, Convert, Objections, LoadFor, CmdReset, OpeningBytes, Chunk, ReasonList;
  }

  lemma MarksAsks(t: Task, m: Machine, a: Act)
    requires Asks(m.phase) && !m.phase.Asking?
    ensures MarksOnce(m, Advance(t, m, a))
  {
    hide Problems, Convert, Objections, LoadFor, CmdReset, OpeningBytes, Chunk, ReasonList;
  }

  lemma MarksSends(t: Task, m: Machine, a: Act)
    requires Sends(m.phase)
    ensures MarksOnce(m, Advance(t, m, a))
  {
    hide Problems, Convert, Objections, LoadFor, CmdReset, OpeningBytes, Chunk, ReasonList;
  }

  lemma MarksLater(t: Task, m: Machine, a: Act)
    requires Inquires(m.phase) || Ends(m.phase)
    ensures MarksOnce(m, Advance(t, m, a))
  {
    hide Problems, Convert, Objections, LoadFor, CmdReset, OpeningBytes, Chunk, ReasonList;
  }

  lemma StepMarks(t: Task, m: Machine, e: Entry)
    requires Step(t, m, e).phase != Lost && m.mark <= m.count
    ensures Step(t, m, e).mark in {m.mark, m.count + 1}
    ensures var r := Step(t, m, e);
      r.mark != m.mark ==> Early(m.phase) && (r.phase.Waiting? || r.phase.Settling?)
  {
    var n := Tick(m, e);
    hide Advance;
    if m.phase.Asking? {
      MarksAsking(t, n, e.act);
    } else if Asks(m.phase) {
      MarksAsks(t, n, e.act);
    } else if Sends(m.phase) {
      MarksSends(t, n, e.act);
    } else {
      MarksLater(t, n, e.act);
    }
  }

  /** With entry k - 1 the job was out: before it the job was being sent, after it labels are outstanding, or none. */
  predicate IsOut(t: Task, log: seq<Entry>, k: nat) {
    && 0 < k <= |log|
    && Early(Replay(t, log[..k - 1]).phase)
    && (Replay(t, log[..k]).phase.Waiting? || Replay(t, log[..k]).phase.Settling?)
  }

  /** The job is out: the run has a mark. */
  predicate Marked(m: Machine) {
    m.phase.Waiting? || m.phase.Settling? || m.phase.Clearing?
    || (m.phase.Inquiring? && m.phase.why == Overdue) || (m.phase.Listening? && m.phase.why == Overdue)
    || (m.phase == Finished && m.res.outcome in {Printed, Unconfirmed})
  }

  lemma MarkedFirst(t: Task, m: Machine, a: Act)
    requires Shape(t, m) && !Inquires(m.phase) && !Ends(m.phase) && m.mark < m.count && Marked(Advance(t, m, a))
    ensures Marked(m) || Advance(t, m, a).mark == m.count
  {
    hide Problems, Convert, Objections, LoadFor, CmdReset, OpeningBytes, Chunk, ReasonList;
  }

  lemma MarkedLater(t: Task, m: Machine, a: Act)
    requires Shape(t, m) && (Inquires(m.phase) || Ends(m.phase)) && Marked(Advance(t, m, a))
    ensures Marked(m)
  {
    hide Problems, CmdReset, ReasonList;
  }

  lemma StepMarked(t: Task, m: Machine, e: Entry)
    requires Shape(t, m) && m.mark <= m.count && Marked(Step(t, m, e))
    ensures Marked(m) || Step(t, m, e).mark == m.count + 1
  {
    var n := Tick(m, e);
    assert Shape(t, n) && Marked(n) == Marked(m);
    hide Advance, Shape, Marked;
    if Inquires(m.phase) || Ends(m.phase) {
      MarkedLater(t, n, e.act);
    } else {
      MarkedFirst(t, n, e.act);
    }
  }

  /**
   What a run takes for the moment the job was out was that moment; and every run that waits,
   or ends as printed or unconfirmed, has had it.
   */
  lemma {:induction false} MarkOfRun(t: Task, log: seq<Entry>)
    requires Replay(t, log).phase != Lost
    ensures var m := Replay(t, log); (m.mark == 0 || IsOut(t, log, m.mark)) && (Marked(m) ==> m.mark > 0)
    decreases |log|
  {
    if log == [] {
      assert !Marked(Start(t));
    } else {
      var front, e := log[..|log| - 1], log[|log| - 1];
      var m, r := Replay(t, front), Replay(t, log);
      LastStep(t, log);
      hide Step, Shape, Marked, Early, IsOut, Tally, Replay;
      MarkOfRun(t, front);
      TraceOfRun(t, front);
      TallyOfRun(t, front);
      CountIsLength(t, front);
      MarkMore(t, log, m, r);
    }
  }

  lemma MarkMore(t: Task, log: seq<Entry>, m: Machine, r: Machine)
    requires log != [] && m == Replay(t, log[..|log| - 1]) && r == Replay(t, log) && r.phase != Lost
    requires r == Step(t, m, log[|log| - 1]) && Shape(t, m) && m.count == |log| - 1 && m.mark <= m.count
    requires (m.mark == 0 || IsOut(t, log[..|log| - 1], m.mark)) && (Marked(m) ==> m.mark > 0)
    ensures (r.mark == 0 || IsOut(t, log, r.mark)) && (Marked(r) ==> r.mark > 0)
  {
    hide Step, Shape, Marked, Early, IsOut, Replay;
    var e := log[|log| - 1];
    StepMarks(t, m, e);
    MarkKept(t, m, e, r);
    if r.mark == m.mark {
      IsOutStays(t, log, m.mark);
    } else {
      IsOutNow(t, log);
    }
  }

  lemma CountIsLength(t: Task, log: seq<Entry>)
    requires Counted(t, log)
    ensures Replay(t, log).count == |log| && Replay(t, log).mark <= |log|
  {
    hide Replay, Tally;
  }

  lemma IsOutStays(t: Task, log: seq<Entry>, k: nat)
    requires log != []
    ensures IsOut(t, log[..|log| - 1], k) ==> IsOut(t, log, k)
  {
    hide Replay, Early;
    var front := log[..|log| - 1];
    assert 0 < k <= |front| ==> front[..k] == log[..k] && front[..k - 1] == log[..k - 1];
  }

  lemma IsOutNow(t: Task, log: seq<Entry>)
    requires log != [] && Early(Replay(t, log[..|log| - 1]).phase)
    requires Replay(t, log).phase.Waiting? || Replay(t, log).phase.Settling?
    ensures IsOut(t, log, |log|)
  {
    hide Replay, Early;
    assert log[..|log|] == log;
  }

  lemma MarkKept(t: Task, m: Machine, e: Entry, r: Machine)
    requires r == Step(t, m, e) && Shape(t, m) && m.mark <= m.count && (Marked(m) ==> m.mark > 0)
    requires r.mark in {m.mark, m.count + 1}
    ensures Marked(r) ==> r.mark > 0
  {
    hide Step, Shape, Marked;
    if Marked(r) {
      StepMarked(t, m, e);
    }
  }

  /**
   The verdict of every run that has ended. Printed means every label was reported, by as
   many frames since the job was out; with a label to print, nothing else counts them all.
   Unconfirmed means that the printer did not answer the last request before the job and
   sent no frame at all since the job was out.
   */
  lemma {:induction false} VerdictIsSound(t: Task, log: seq<Entry>)
    requires Replay(t, log).phase == Finished
    ensures var m := Replay(t, log);
      && m.mark <= |log|
      && m.res.pages == t.job.pages
      && m.res.completed <= t.job.pages
      && m.res.completed <= Completions(SinceSent(m, log))
      && (m.res.outcome == Printed ==> m.res.completed == t.job.pages && !m.res.muted)
      && (t.job.pages >= 1 ==> (m.res.outcome == Printed <==> m.res.completed == t.job.pages))
      && (m.res.outcome == Unconfirmed ==>
          m.res.muted && m.res.completed == 0 && Frames(SinceSent(m, log)) == 0 && m.replies == m.asks)
  {
    hide Step;
    TallyOfRun(t, log);
    TraceOfRun(t, log);
  }

  function OneLabel(): Task {
    Task(PRODUCTION, Job(1, UNKNOWN_MEDIA, false), [0x1A])
  }

  lemma Next(t: Task, log: seq<Entry>, e: Entry) returns (more: seq<Entry>, m: Machine)
    ensures more == log + [e] && m == Replay(t, more) == Step(t, Replay(t, log), e)
  {
    ReplayMore(t, log, e);
    more, m := log + [e], Replay(t, log + [e]);
  }

  // ----- What CUPS is told -----

  function StateOf(e: Entry): seq<Act> {
    if e.act.StatePlus? || e.act.StateMinus? then [e.act] else []
  }

  /** The STATE lines of a log. */
  function StateLines(log: seq<Entry>): seq<Act> {
    if log == [] then [] else StateLines(log[..|log| - 1]) + StateOf(log[|log| - 1])
  }

  /** The lines an ended job has given: its reasons if it failed, the all-clear if it printed. */
  function LinesFor(res: Result): seq<Act> {
    match res.outcome
    case Failed => [StatePlus(res.reasons)]
    case Printed => [StateMinus]
    case _ => []
  }

  /** There is something wrong, and for every problem a reason that can be cleared. */
  predicate Named(ps: seq<Problem>) {
    ps != [] && AllClearable(ps)
  }

  predicate Clearable(reasons: seq<Reason>) {
    forall r | r in reasons :: r in PROBLEM_REASONS
  }

  predicate Told(m: Machine, lines: seq<Act>) {
    && lines == LinesFor(m.res)
    && (m.res.outcome == Failed ==> m.res.reasons != [])
    && Clearable(m.res.reasons)
    && match m.phase
       case Failing(ps, _) => Named(ps) && m.res.outcome == Undecided
       case Draining(_, _, ThenInquire(ps)) => Named(ps) && m.res.outcome == Undecided
       case Resetting(ThenInquire(ps)) => Named(ps) && m.res.outcome == Undecided
       case Inquiring(Stopped(ps)) => Named(ps) && m.res.outcome == Undecided
       case Listening(Stopped(ps), _, _) => Named(ps) && m.res.outcome == Undecided
       case Draining(_, _, ThenFinish) => m.res.outcome == Failed
       case Resetting(ThenFinish) => m.res.outcome == Failed
       case Finished => true
       case Lost => true
       case _ => m.res.outcome == Undecided
  }

  lemma {:induction false} ReasonsNamed(ps: seq<Problem>)
    ensures ps != [] ==> ReasonList(ps) != []
    ensures forall r :: r in ReasonList(ps) <==> exists i :: 0 <= i < |ps| && ps[i].reason == r
    ensures forall i, j | 0 <= i < j < |ReasonList(ps)| :: ReasonList(ps)[i] != ReasonList(ps)[j]
    decreases |ps|
  {
    if ps != [] {
      var n := |ps| - 1;
      ReasonsNamed(ps[..n]);
      forall r
        ensures r in ReasonList(ps) <==> exists i :: 0 <= i < |ps| && ps[i].reason == r
      {
        if r in ReasonList(ps[..n]) {
          var i :| 0 <= i < n && ps[..n][i].reason == r;
          assert ps[i].reason == r;
        }
        if exists i :: 0 <= i < |ps| && ps[i].reason == r {
          var i :| 0 <= i < |ps| && ps[i].reason == r;
          assert i < n ==> ps[..n][i].reason == r;
        }
      }
    }
  }

  lemma LoneIsNamed()
    ensures forall a :: Named(Lone(a))
    ensures forall a, ps :: Named(ps) ==> Named(ps + Lone(a))
  {
  }

  lemma ProblemsAreNamed(st: Status)
    ensures Problems(st) == [] || Named(Problems(st))
  {
    hide Problems;
    ProblemsClearable(st);
  }

  lemma ObjectionsAreNamed(t: Task, st: Status)
    ensures Objections(t, st) == [] || Named(Objections(t, st))
  {
    hide Problems, MediaMismatch;
    ProblemsClearable(st);
    DropReasonKeeps(Problems(st), "media-needed-error");
    var left := DropReason(Problems(st), "media-needed-error");
    assert forall i | 0 <= i < |left| :: left[i] in left;
  }

  lemma NamedIsClearable(ps: seq<Problem>)
    requires Named(ps)
    ensures ReasonList(ps) != [] && Clearable(ReasonList(ps))
  {
    hide ReasonList;
    ReasonsNamed(ps);
  }

  lemma ToldAsks(t: Task, m: Machine, e: Entry, lines: seq<Act>)
    requires Told(m, lines) && Asks(m.phase)
    ensures Advance(t, m, e.act).phase == Lost || Told(Advance(t, m, e.act), lines + StateOf(e))
  {
    hide Problems, Objections, Named, Clearable, Lone, LoadFor, CmdReset, OpeningBytes, Chunk, ReasonList;
    LoneIsNamed();
    if e.act.Got? {
      ObjectionsAreNamed(t, e.act.st);
    }
  }

  lemma ToldSends(t: Task, m: Machine, e: Entry, lines: seq<Act>)
    requires Told(m, lines) && Sends(m.phase)
    ensures Advance(t, m, e.act).phase == Lost || Told(Advance(t, m, e.act), lines + StateOf(e))
  {
    hide Problems, Objections, Named, Clearable, Lone, LoadFor, CmdReset, OpeningBytes, Chunk, ReasonList;
    LoneIsNamed();
    if e.act.Got? {
      ProblemsAreNamed(e.act.st);
    }
  }

  lemma ToldInquires(t: Task, m: Machine, e: Entry, lines: seq<Act>)
    requires Told(m, lines) && Inquires(m.phase)
    ensures Advance(t, m, e.act).phase == Lost || Told(Advance(t, m, e.act), lines + StateOf(e))
  {
    hide Problems, Objections, Named, Clearable, Lone, LoadFor, CmdReset, OpeningBytes, Chunk, ReasonList;
    LoneIsNamed();
    if e.act.Got? {
      ProblemsAreNamed(e.act.st);
    }
  }

  lemma ToldEnds(t: Task, m: Machine, e: Entry, lines: seq<Act>)
    requires Told(m, lines) && Ends(m.phase)
    ensures Advance(t, m, e.act).phase == Lost || Told(Advance(t, m, e.act), lines + StateOf(e))
  {
    hide Problems, Objections, Named, Clearable, Lone, LoadFor, CmdReset, OpeningBytes, Chunk, ReasonList;
    if m.phase.Failing? {
      NamedIsClearable(m.phase.ps);
    }
  }

  lemma StepTold(t: Task, m: Machine, e: Entry, lines: seq<Act>)
    requires Told(m, lines) && Step(t, m, e).phase != Lost
    ensures Told(Step(t, m, e), lines + StateOf(e))
  {
    var n := Tick(m, e);
    assert Told(n, lines);
    hide Advance, Told;
    if Asks(m.phase) {
      ToldAsks(t, n, e, lines);
    } else if Sends(m.phase) {
      ToldSends(t, n, e, lines);
    } else if Inquires(m.phase) {
      ToldInquires(t, n, e, lines);
    } else {
      ToldEnds(t, n, e, lines);
    }
  }

  /** CUPS is told of every ended job what its outcome calls for, and nothing else. */
  lemma {:induction false} ToldOfRun(t: Task, log: seq<Entry>)
    requires Replay(t, log).phase != Lost
    ensures Told(Replay(t, log), StateLines(log))
    decreases |log|
  {
    if log != [] {
      hide Step, Told;
      var front, e := log[..|log| - 1], log[|log| - 1];
      LostStays(t, Replay(t, front), e);
      ToldOfRun(t, front);
      StepTold(t, Replay(t, front), e, StateLines(front));
    }
  }

  // ----- Over the life of a queue -----

  /** What the lines make of the reasons CUPS has set. */
  function Apply(reasons: set<Reason>, lines: seq<Act>): set<Reason> {
    if lines == [] then reasons
    else
      var front := Apply(reasons, lines[..|lines| - 1]);
      match lines[|lines| - 1]
      case StatePlus(more) => front + set r | r in more
      case StateMinus => front - PROBLEM_REASONS
      case _ => front
  }

  /**
   A job that went through the queue: what it was given and the log of its run, or one that
   failed in the backend before that, as its data could not be read or parsed or the printer
   not be opened.
   */
  datatype Run = Run(task: Task, log: seq<Entry>) | Unsent

  predicate HasEnded(run: Run) {
    run.Run? ==> Replay(run.task, run.log).phase == Finished
  }

  function ResultOf(run: Run): Result {
    match run
    case Run(task, log) => Replay(task, log).res
    case Unsent => Result(Failed, ReasonList(Lone(CannotSend)), 0, 0, false)
  }

  /** The STATE lines CUPS gets of it. */
  function LinesOf(run: Run): seq<Act> {
    match run
    case Run(_, log) => StateLines(log)
    case Unsent => LinesFor(ResultOf(Unsent))
  }

  /** The reasons CUPS has set after the jobs, one after the other, on a queue that had none. */
  function ReasonsAfter(runs: seq<Run>): set<Reason> {
    if runs == [] then {} else Apply(ReasonsAfter(runs[..|runs| - 1]), LinesOf(runs[|runs| - 1]))
  }

  /** Every reason of every run is one of those that a printed job clears. */
  lemma {:induction false} ReasonsAreKnown(t: Task, log: seq<Entry>)
    requires Replay(t, log).phase != Lost
    ensures forall r | r in Replay(t, log).res.reasons :: r in PROBLEM_REASONS
  {
    hide Replay;
    ToldOfRun(t, log);
  }

  /** What one ended job does to the reasons set. */
  lemma {:induction false} JobReasons(before: set<Reason>, run: Run)
    requires HasEnded(run)
    ensures Apply(before, LinesOf(run)) ==
      match ResultOf(run).outcome
      case Printed => before - PROBLEM_REASONS
      case Failed => before + set r | r in ResultOf(run).reasons
      case _ => before
  {
    if run.Run? {
      ToldOfRun(run.task, run.log);
    }
    hide Replay, ReasonList;
    var lines := LinesOf(run);
    if lines != [] {
      assert lines[..|lines| - 1] == [];
    }
  }

  /**
   The reasons set are always among those the backend knows, and are exactly the reasons
   of the failed jobs since the last one that printed: after a printed job none remains.
   */
  lemma {:induction false} ReasonsAreOfRecentFailures(runs: seq<Run>)
    requires forall i | 0 <= i < |runs| :: HasEnded(runs[i])
    ensures ReasonsAfter(runs) <= PROBLEM_REASONS
    ensures forall r :: r in ReasonsAfter(runs) <==>
      exists i :: 0 <= i < |runs| && FailedSince(runs, i, r)
    ensures runs != [] && ResultOf(runs[|runs| - 1]).outcome == Printed ==> ReasonsAfter(runs) == {}
    decreases |runs|
  {
    if runs != [] {
      var n := |runs| - 1;
      var front := runs[..n];
      ReasonsAreOfRecentFailures(front);
      JobReasons(ReasonsAfter(front), runs[n]);
      ResultIsKnown(runs[n]);
      hide HasEnded, ResultOf;
      forall r
        ensures r in ReasonsAfter(runs) <==> exists i :: 0 <= i < |runs| && FailedSince(runs, i, r)
      {
        FailedSinceLast(runs, r);
      }
    }
  }

  lemma ResultIsKnown(run: Run)
    requires HasEnded(run)
    ensures forall r | r in ResultOf(run).reasons :: r in PROBLEM_REASONS
  {
    if run.Run? {
      ReasonsAreKnown(run.task, run.log);
    } else {
      ReasonsNamed(Lone(CannotSend));
    }
  }

  /** Job i failed for this reason, and no job since has printed. */
  predicate FailedSince(runs: seq<Run>, i: nat, r: Reason)
    requires i < |runs|
  {
    ResultOf(runs[i]).outcome == Failed && r in ResultOf(runs[i]).reasons &&
    forall j | i < j < |runs| :: ResultOf(runs[j]).outcome != Printed
  }

  lemma FailedSinceLast(runs: seq<Run>, r: Reason)
    requires runs != []
    ensures var n := |runs| - 1;
      (exists i :: 0 <= i < |runs| && FailedSince(runs, i, r)) <==>
        (ResultOf(runs[n]).outcome == Failed && r in ResultOf(runs[n]).reasons) ||
        (ResultOf(runs[n]).outcome != Printed && exists i :: 0 <= i < n && FailedSince(runs[..n], i, r))
  {
    hide ResultOf;
    var n := |runs| - 1;
    assert forall i | 0 <= i < n :: runs[..n][i] == runs[i];
    if exists i :: 0 <= i < |runs| && FailedSince(runs, i, r) {
      var i :| 0 <= i < |runs| && FailedSince(runs, i, r);
      assert i < n ==> FailedSince(runs[..n], i, r);
    }
    if ResultOf(runs[n]).outcome == Failed && r in ResultOf(runs[n]).reasons {
      assert FailedSince(runs, n, r);
    }
    if ResultOf(runs[n]).outcome != Printed && exists i :: 0 <= i < n && FailedSince(runs[..n], i, r) {
      var i :| 0 <= i < n && FailedSince(runs[..n], i, r);
      assert FailedSince(runs, i, r);
    }
  }

  // ----- When a job is refused -----

  lemma {:induction false} DropReasonKeeps(ps: seq<Problem>, reason: Reason)
    ensures forall p :: p in DropReason(ps, reason) <==> p in ps && p.reason != reason
    decreases |ps|
  {
    if ps != [] {
      var n := |ps| - 1;
      DropReasonKeeps(ps[..n], reason);
      assert ps == ps[..n] + [ps[n]];
    }
  }

  /**
   What the printer says is held against a job: every problem it reports, unless it is about a
   roll the job does not name, and the wrong roll. By the bytes: of a job that names its roll,
   any reported error bit, or a loaded roll of known width that differs in width or in kind;
   of another job, any error bit but the one for a roll that does not match.
   */
  lemma {:induction false} ObjectionsIff(t: Task, st: Status)
    ensures Objections(t, st) != [] <==>
      || (exists p :: p in Problems(st) && (t.job.media.known || p.reason != "media-needed-error"))
      || MediaMismatch(st, t.job.media)
    ensures Objections(t, st) != [] <==>
      var want := t.job.media;
      if want.known then
        || !(st.err1 % 8 == 0 && st.err1 < 128 && st.err2 in {0x00, 0x20})
        || (st.mediaWidth != 0 &&
            (st.mediaWidth != want.widthMM
             || (!(want.kind in {0x0A, 0x4A} && st.mediaType in {0x0A, 0x4A})
                 && !(want.kind in {0x0B, 0x4B} && st.mediaType in {0x0B, 0x4B}))))
      else !(st.err1 % 8 == 0 && st.err1 < 128 && st.err2 in {0x00, 0x01, 0x20, 0x21})
  {
    hide Problems, MediaMismatch;
    DropReasonKeeps(Problems(st), "media-needed-error");
    CleanIff(st);
    CleanButRollIff(st);
    MediaMismatchIff(st, t.job.media);
    var ps := if t.job.media.known then Problems(st) else DropReason(Problems(st), "media-needed-error");
    assert ps != [] ==> ps[0] in ps;
  }
}
