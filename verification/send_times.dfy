/**
 How long a run takes. A run is prompt when every wait is over by the time its timer is
 due and nothing but waits and writes takes time; timers are re-armed by the frames that
 re-arm them, so the bounds count those frames.
 */
module SendTimes {
  import opened Bytes
  import opened TwoColor
  import opened Reset
  import opened PrinterStatus
  import opened SendProtocol
  import opened SendLaws
  import opened SendVerdicts

  /** No wait outlasts its timer. */
  predicate PromptStep(m: Machine, e: Entry) {
    match m.phase
    case Draining(_, limit, _) => e.at <= limit
    case Asking(_, due) => e.at <= due
    case Resting(_, until) => e.at <= until
    case Waiting(_, due) => e.at <= due
    case Listening(_, _, due) => e.at <= due
    case Settling(due) => e.at <= due
    case Sending => e.at <= m.now
    case SendBroken => e.at <= m.now
    case Clearing => e.at <= m.now
    case Failing(_, _) => e.at <= m.now
    case _ => true
  }

  /** A label that is reported leaves at least PerPageTimeout less `lap` of the timer unused. */
  predicate BriskStep(t: Task, lap: nat, m: Machine, e: Entry) {
    m.phase.Waiting? && IsCompletion(e) ==> e.at + t.cfg.perPage <= m.phase.due + lap
  }

  /** The whole run is prompt, and each label is reported within `lap` of the one before. */
  predicate Prompt(t: Task, lap: nat, log: seq<Entry>) {
    log == [] ||
    (Prompt(t, lap, log[..|log| - 1]) &&
     PromptStep(Replay(t, log[..|log| - 1]), log[|log| - 1]) &&
     BriskStep(t, lap, Replay(t, log[..|log| - 1]), log[|log| - 1]))
  }

  function Times(n: nat, d: nat): nat {
    if n == 0 then 0 else Times(n - 1, d) + d
  }

  lemma {:induction false} TimesIsProduct(n: nat, d: nat)
    ensures Times(n, d) == n * d
  {
    if n > 0 {
      TimesIsProduct(n - 1, d);
    }
  }

  lemma TimesNext(n: nat, d: nat)
    ensures Times(n + 1, d) == Times(n, d) + d
  {
  }

  lemma {:induction false} TimesMonotone(n: nat, k: nat, d: nat)
    requires n <= k
    ensures Times(n, d) <= Times(k, d)
    decreases k
  {
    if n < k {
      TimesMonotone(n, k - 1, d);
    }
  }

  /** By when the answer to the last status request before the job is out, or given up on. */
  function Asked(t: Task, m: Machine): nat {
    1000 + Times(m.asks, t.cfg.preflight + 1000) + t.cfg.preflight
  }

  /**
   Where the waits begin: when the job was out, and the time spent in writes since; before, by
   when it may be sent.
   */
  function Origin(t: Task, m: Machine): int {
    if m.mark == 0 then Asked(t, m) + m.writing else m.sentAt + m.writing - m.sentWriting
  }

  /** By when the timer for the label after the n-th is due. */
  function Due(t: Task, lap: nat, m: Machine, n: nat): int {
    Origin(t, m) + Allowed(t, lap, m.resumed, m.cooled, n)
  }

  /** What n labels and the one after, and the cooling notifications, add to a wait. */
  function Allowed(t: Task, lap: nat, resumed: nat, cooled: nat, n: nat): nat {
    Times(n, lap) + Times(resumed + 1, t.cfg.perPage) + Times(cooled, t.cfg.cooling)
  }

  /** The labels reported before the last one. */
  function Prior(m: Machine): nat {
    if m.res.completed == 0 then 0 else m.res.completed - 1
  }

  predicate Timely(t: Task, lap: nat, m: Machine) {
    var asked, p, s := Asked(t, m) + m.writing, t.cfg.preflight, 2 * t.cfg.settle;
    var wait := Due(t, lap, m, m.res.completed);
    && (if m.mark == 0 then m.phase != Clearing && !m.phase.Waiting? && !m.phase.Settling?
        else m.sentWriting <= m.writing && m.sentAt <= Asked(t, m) + m.sentWriting)
    && match m.phase
    case Draining(_, limit, ThenOpen) => m.mark == 0 && m.now <= 1000 && limit <= 1000
    case Opening => m.mark == 0 && m.now <= asked - p
    case Asking(_, due) => m.mark == 0 && m.now <= asked && due <= asked
    case Resting(_, until) => m.mark == 0 && m.now <= asked && until <= asked + 1000
    case Reasking(_) => m.mark == 0 && m.now <= asked + 1000
    case Sending => m.mark == 0 && m.now <= asked
    case Chunking => m.mark == 0 && m.now <= asked
    case SendBroken => m.mark == 0 && m.now <= asked
    case Waiting(_, due) => m.writing == m.sentWriting && m.now <= wait && due <= wait
    case Inquiring(Overdue) => m.mark > 0 && m.now <= wait
    case Listening(Overdue, _, due) => m.mark > 0 && m.now <= wait + p && due <= wait + p
    case Settling(due) =>
      m.now <= Due(t, lap, m, Prior(m)) + p + s && due <= Due(t, lap, m, Prior(m)) + p + t.cfg.settle
    case Clearing => m.now <= Due(t, lap, m, Prior(m)) + p + t.cfg.settle
    case Failing(_, true) => m.now <= wait + p
    case Resetting(ThenFinish) => m.now <= wait + p
    case Draining(_, limit, ThenFinish) => m.now <= wait + p + s && limit <= wait + p + s
    case Resetting(ThenInquire(_)) => m.now <= wait
    case Draining(_, limit, ThenInquire(_)) => m.now <= wait + s && limit <= wait + s
    case Inquiring(Stopped(_)) => m.now <= wait + s
    case Listening(Stopped(_), _, due) => m.now <= wait + s + p && due <= wait + s + p
    case Failing(_, false) => m.now <= wait + s + p
    case Canceling => m.now <= wait
    case Finished =>
      (match m.res.outcome
       case Printed => m.now <= Due(t, lap, m, Prior(m)) + p + t.cfg.settle
       case Unconfirmed => m.now <= wait
       case _ => m.now <= wait + p + s)
    case _ => true
  }

  /** How the bound moves with what it counts. */
  lemma AllowedGrows(t: Task, lap: nat, m: Machine)
    ensures var r, c, n := m.resumed, m.cooled, m.res.completed;
      && Allowed(t, lap, r, c, n + 1) == Allowed(t, lap, r, c, n) + lap
      && Allowed(t, lap, r + 1, c, n) == Allowed(t, lap, r, c, n) + t.cfg.perPage
      && Allowed(t, lap, r, c + 1, n) == Allowed(t, lap, r, c, n) + t.cfg.cooling
      && (forall k: nat :: Allowed(t, lap, r, c, k) >= t.cfg.perPage)
      && (forall k: nat | n <= k :: Allowed(t, lap, r, c, n) <= Allowed(t, lap, r, c, k))
      && Times(m.asks + 1, t.cfg.preflight + 1000) == Times(m.asks, t.cfg.preflight + 1000) + t.cfg.preflight + 1000
  {
    TimesNext(m.resumed + 1, t.cfg.perPage);
    TimesNext(m.resumed, t.cfg.perPage);
    TimesNext(m.cooled, t.cfg.cooling);
    TimesNext(m.res.completed, lap);
    TimesNext(m.asks, t.cfg.preflight + 1000);
    forall k: nat | m.res.completed <= k
      ensures Times(m.res.completed, lap) <= Times(k, lap)
    {
      TimesMonotone(m.res.completed, k, lap);
    }
    hide Times;
  }

  /** What the bounds need of the run besides the clock. */
  predicate Sane(t: Task, m: Machine) {
    && (m.phase.Listening? || m.phase.Inquiring? ==> m.res.completed < t.job.pages)
    && (m.phase.Draining? && m.phase.then_ == ThenFinish ==> m.res.outcome == Failed)
    && (m.phase.Resetting? ==> m.phase.then_ != ThenOpen)
  }

  predicate Ready(t: Task, lap: nat, m: Machine, e: Entry) {
    Timely(t, lap, m) && Sane(t, m) && e.at >= m.now && PromptStep(m, e) && BriskStep(t, lap, m, e)
  }

  lemma TimelyQuiet(t: Task, lap: nat, m: Machine, e: Entry)
    requires Ready(t, lap, m, e)
    requires m.phase.Draining?
    ensures Timely(t, lap, Advance(t, Tick(m, e), e.act))
  {
    hide Problems, Convert, Objections, LoadFor, CmdReset, OpeningBytes, Chunk, ReasonList, Times, Allowed;
    AllowedGrows(t, lap, m);
  }

  lemma TimelyAsk(t: Task, lap: nat, m: Machine, e: Entry)
    requires Ready(t, lap, m, e)
    requires m.phase.Opening? || m.phase.Resting? || m.phase.Reasking?
    ensures Timely(t, lap, Advance(t, Tick(m, e), e.act))
  {
    hide Problems, Convert, Objections, LoadFor, CmdReset, OpeningBytes, Chunk, ReasonList, Times, Allowed;
    AllowedGrows(t, lap, m);
  }

  lemma TimelyReply(t: Task, lap: nat, m: Machine, e: Entry)
    requires Ready(t, lap, m, e)
    requires m.phase.Asking? && e.act.Got?
    ensures Timely(t, lap, Advance(t, Tick(m, e), e.act))
  {
    hide Problems, Convert, Objections, LoadFor, CmdReset, OpeningBytes, Chunk, ReasonList, Times, Allowed;
    AllowedGrows(t, lap, m);
  }

  lemma TimelyNoReply(t: Task, lap: nat, m: Machine, e: Entry)
    requires Ready(t, lap, m, e)
    requires m.phase.Asking? && !e.act.Got?
    ensures Timely(t, lap, Advance(t, Tick(m, e), e.act))
  {
    hide Problems, Convert, Objections, LoadFor, CmdReset, OpeningBytes, Chunk, ReasonList, Times, Allowed;
    AllowedGrows(t, lap, m);
  }

  lemma TimelySend(t: Task, lap: nat, m: Machine, e: Entry)
    requires Ready(t, lap, m, e)
    requires m.phase.Sending? || m.phase.Chunking? || m.phase.SendBroken?
    ensures Timely(t, lap, Advance(t, Tick(m, e), e.act))
  {
    hide Problems, Convert, Objections, LoadFor, CmdReset, OpeningBytes, Chunk, ReasonList, Times, Allowed;
    AllowedGrows(t, lap, m);
  }

  lemma TimelyFrame(t: Task, lap: nat, m: Machine, e: Entry)
    requires Ready(t, lap, m, e)
    requires m.phase.Waiting? && e.act.Got?
    ensures Timely(t, lap, Advance(t, Tick(m, e), e.act))
  {
    hide Problems, Convert, Objections, LoadFor, CmdReset, OpeningBytes, Chunk, ReasonList, Times, Allowed;
    AllowedGrows(t, lap, m);
  }

  lemma TimelyNoFrame(t: Task, lap: nat, m: Machine, e: Entry)
    requires Ready(t, lap, m, e)
    requires m.phase.Waiting? && !e.act.Got?
    ensures Timely(t, lap, Advance(t, Tick(m, e), e.act))
  {
    hide Problems, Convert, Objections, LoadFor, CmdReset, OpeningBytes, Chunk, ReasonList, Times, Allowed;
    AllowedGrows(t, lap, m);
  }

  lemma TimelyInquire(t: Task, lap: nat, m: Machine, e: Entry)
    requires Ready(t, lap, m, e)
    requires m.phase.Inquiring?
    ensures Timely(t, lap, Advance(t, Tick(m, e), e.act))
  {
    hide Problems, Convert, Objections, LoadFor, CmdReset, OpeningBytes, Chunk, ReasonList, Times, Allowed;
    AllowedGrows(t, lap, m);
  }

  lemma LateStep(t: Task, m: Machine, e: Entry)
    requires m.phase.Listening? && m.phase.why.Overdue? && e.at >= m.now && m.res.completed < t.job.pages
    ensures var r := Advance(t, Tick(m, e), e.act);
      || r.phase == Lost
      || (r == Tick(m, e).(phase := r.phase, res := r.res) && !e.act.Wrote? && r.res.completed >= m.res.completed &&
          (|| (r.phase.Listening? && r.phase.why == Overdue && r.phase.due == m.phase.due && r.res == m.res)
           || (r.phase == Settling(e.at + t.cfg.settle) && r.res.completed > m.res.completed)
           || (r.phase.Failing? && r.phase.reset)))
  {
    hide Problems, ReasonList;
  }

  lemma TimelyListenLate(t: Task, lap: nat, m: Machine, e: Entry)
    requires Ready(t, lap, m, e)
    requires m.phase.Listening? && m.phase.why.Overdue?
    ensures Timely(t, lap, Advance(t, Tick(m, e), e.act))
  {
    LateStep(t, m, e);
    hide Advance, Problems, Convert, Objections, LoadFor, CmdReset, OpeningBytes, Chunk, ReasonList, Times, Allowed;
    AllowedGrows(t, lap, m);
  }

  lemma TimelyListenStopped(t: Task, lap: nat, m: Machine, e: Entry)
    requires Ready(t, lap, m, e)
    requires m.phase.Listening? && m.phase.why.Stopped?
    ensures Timely(t, lap, Advance(t, Tick(m, e), e.act))
  {
    hide Problems, Convert, Objections, LoadFor, CmdReset, OpeningBytes, Chunk, ReasonList, Times, Allowed;
    AllowedGrows(t, lap, m);
  }

  lemma TimelyFail(t: Task, lap: nat, m: Machine, e: Entry)
    requires Ready(t, lap, m, e)
    requires m.phase.Failing? || m.phase.Resetting? || m.phase.Canceling?
    ensures Timely(t, lap, Advance(t, Tick(m, e), e.act))
  {
    hide Problems, Convert, Objections, LoadFor, CmdReset, OpeningBytes, Chunk, ReasonList, Times, Allowed;
    AllowedGrows(t, lap, m);
  }

  lemma TimelyEnd(t: Task, lap: nat, m: Machine, e: Entry)
    requires Ready(t, lap, m, e)
    requires m.phase.Settling? || m.phase.Clearing? || m.phase.Finished? || m.phase.Lost?
    ensures Timely(t, lap, Advance(t, Tick(m, e), e.act))
  {
    hide Problems, Convert, Objections, LoadFor, CmdReset, OpeningBytes, Chunk, ReasonList, Times, Allowed;
    AllowedGrows(t, lap, m);
  }

  lemma StepTimely(t: Task, lap: nat, m: Machine, e: Entry)
    requires Timely(t, lap, m) && Sane(t, m) && PromptStep(m, e) && BriskStep(t, lap, m, e)
    requires Step(t, m, e).phase != Lost
    ensures Timely(t, lap, Step(t, m, e))
  {
    hide Advance, Sane, Timely, PromptStep, BriskStep;
    if m.phase.Draining? {
      TimelyQuiet(t, lap, m, e);
    } else if m.phase.Opening? || m.phase.Resting? || m.phase.Reasking? {
      TimelyAsk(t, lap, m, e);
    } else if m.phase.Asking? {
      if e.act.Got? {
        TimelyReply(t, lap, m, e);
      } else {
        TimelyNoReply(t, lap, m, e);
      }
    } else if m.phase.Sending? || m.phase.Chunking? || m.phase.SendBroken? {
      TimelySend(t, lap, m, e);
    } else if m.phase.Waiting? {
      if e.act.Got? {
        TimelyFrame(t, lap, m, e);
      } else {
        TimelyNoFrame(t, lap, m, e);
      }
    } else if m.phase.Inquiring? {
      TimelyInquire(t, lap, m, e);
    } else if m.phase.Listening? {
      if m.phase.why.Overdue? {
        TimelyListenLate(t, lap, m, e);
      } else {
        TimelyListenStopped(t, lap, m, e);
      }
    } else if m.phase.Failing? || m.phase.Resetting? || m.phase.Canceling? {
      TimelyFail(t, lap, m, e);
    } else {
      TimelyEnd(t, lap, m, e);
    }
  }

  lemma {:induction false} TimesOfRun(t: Task, lap: nat, log: seq<Entry>)
    requires Replay(t, log).phase != Lost && Prompt(t, lap, log)
    ensures Timely(t, lap, Replay(t, log))
    decreases |log|
  {
    hide Step, Timely, PromptStep, BriskStep, Sane, Start;
    if log == [] {
      TimelyAtStart(t, lap);
    } else {
      var front, e := log[..|log| - 1], log[|log| - 1];
      LostStays(t, Replay(t, front), e);
      TimesOfRun(t, lap, front);
      SaneRun(t, front);
      StepTimely(t, lap, Replay(t, front), e);
    }
  }

  lemma SaneRun(t: Task, log: seq<Entry>)
    requires Replay(t, log).phase != Lost
    ensures Sane(t, Replay(t, log))
  {
    hide Replay;
    TallyOfRun(t, log);
    TraceOfRun(t, log);
  }

  lemma TimelyAtStart(t: Task, lap: nat)
    ensures Timely(t, lap, Start(t))
  {
  }

  /** The time allowed in a wait, written out. */
  lemma AllowedIs(t: Task, lap: nat, resumed: nat, cooled: nat, n: nat)
    ensures Allowed(t, lap, resumed, cooled, n) == n * lap + (resumed + 1) * t.cfg.perPage + cooled * t.cfg.cooling
  {
    TimesIsProduct(n, lap);
    TimesIsProduct(resumed + 1, t.cfg.perPage);
    TimesIsProduct(cooled, t.cfg.cooling);
  }

  /**
   The wait for the labels: whatever ends a turn of it comes within PerPageTimeout for
   each label and each end of cooling, and CoolingTimeout for each start of cooling.
   */
  lemma {:induction false} WaitIsBounded(t: Task, log: seq<Entry>, e: Entry)
    requires Replay(t, log).phase.Waiting? && Prompt(t, t.cfg.perPage, log + [e])
    ensures var m := Replay(t, log);
      e.at <= m.sentAt + (t.job.pages + m.resumed) * t.cfg.perPage + m.cooled * t.cfg.cooling
  {
    hide Replay, Prompt, Allowed;
    var m, per := Replay(t, log), t.cfg.perPage;
    PromptFront(t, per, log, e);
    TimesOfRun(t, per, log);
    TallyOfRun(t, log);
    AllowedIs(t, per, m.resumed, m.cooled, m.res.completed);
    PerPages(m.res.completed, t.job.pages, m.resumed, per);
  }

  // ----- The same, counted over the log -----

  /** The cooling notifications of one kind in a log. */
  function Notices(log: seq<Entry>, what: byte): nat {
    if log == [] then 0
    else Notices(log[..|log| - 1], what) + if IsNotice(log[|log| - 1], what) then 1 else 0
  }

  predicate IsNotice(e: Entry, what: byte) {
    e.act.Got? && e.act.st.kind == TYPE_NOTIFICATION && e.act.st.notification == what
  }

  predicate NoCooling(m: Machine) {
    m.cooled == 0 && m.resumed == 0
  }

  /** How a step bears on the cooling counts. */
  predicate Cools(m: Machine, r: Machine, e: Entry) {
    && (Early(r.phase) ==> Early(m.phase) && NoCooling(r))
    && (r.phase.Waiting? && !m.phase.Waiting? ==>
          Early(m.phase) && NoCooling(r) && r.mark == r.count && r.sentAt == r.now)
    && (r.phase.Waiting? && m.phase.Waiting? ==>
          && r.mark == m.mark && r.sentAt == m.sentAt
          && r.cooled == m.cooled + (if IsNotice(e, COOLING_STARTED) then 1 else 0)
          && r.resumed == m.resumed + (if IsNotice(e, COOLING_FINISHED) then 1 else 0))
  }

  lemma CoolsFirst(t: Task, m: Machine, e: Entry)
    requires Early(m.phase) && NoCooling(m)
    ensures Cools(m, Advance(t, m, e.act), e)
  {
    hide Problems, Convert, Objections, LoadFor, CmdReset, OpeningBytes, Chunk, ReasonList;
  }

  lemma CoolsWaiting(t: Task, m: Machine, e: Entry)
    requires m.phase.Waiting?
    ensures Cools(m, Advance(t, m, e.act), e)
  {
    hide Problems, ReasonList;
  }

  lemma CoolsLater(t: Task, m: Machine, e: Entry)
    requires Shape(t, m) && !Early(m.phase) && !m.phase.Waiting?
    ensures Cools(m, Advance(t, m, e.act), e)
  {
    hide Problems, CmdReset, ReasonList;
  }

  lemma StepCools(t: Task, m: Machine, e: Entry)
    requires Shape(t, m) && (Early(m.phase) ==> NoCooling(m)) && Step(t, m, e).phase != Lost
    ensures Cools(m, Step(t, m, e), e)
  {
    var n := Tick(m, e);
    assert Shape(t, n);
    hide Advance, Shape;
    if Early(m.phase) {
      CoolsFirst(t, n, e);
    } else if m.phase.Waiting? {
      CoolsWaiting(t, n, e);
    } else {
      CoolsLater(t, n, e);
    }
  }

  /** The counters against the log. */
  predicate CoolingCounted(t: Task, log: seq<Entry>) {
    var m := Replay(t, log);
    && (Early(m.phase) ==> NoCooling(m))
    && (m.phase.Waiting? ==>
          && IsOut(t, log, m.mark) && m.sentAt == log[m.mark - 1].at
          && m.cooled == Notices(log[m.mark..], COOLING_STARTED)
          && m.resumed == Notices(log[m.mark..], COOLING_FINISHED))
  }

  lemma {:induction false} CoolingOfRun(t: Task, log: seq<Entry>)
    requires Replay(t, log).phase != Lost
    ensures CoolingCounted(t, log)
    decreases |log|
  {
    if log == [] {
      assert NoCooling(Start(t));
    } else {
      var front, e := log[..|log| - 1], log[|log| - 1];
      LastStep(t, log);
      hide Step, Shape, CoolingCounted, Cools, Early, Replay, Counted;
      CoolingOfRun(t, front);
      TraceOfRun(t, front);
      TallyOfRun(t, front);
      CoolingMore(t, front, e);
    }
  }

  lemma CoolingMore(t: Task, log: seq<Entry>, e: Entry)
    requires CoolingCounted(t, log) && Counted(t, log) && Shape(t, Replay(t, log)) && Replay(t, log + [e]).phase != Lost
    ensures CoolingCounted(t, log + [e])
  {
    var more := log + [e];
    var m, r := Replay(t, log), Replay(t, more);
    ReplayMore(t, log, e);
    hide Step, Shape, Replay, Tally, Early;
    StepCools(t, m, e);
    StepCounts(t, m, e);
    EntryTime(t, m, e);
    assert more[..|log|] == log && more[..|more|] == more;
    if r.phase.Waiting? {
      if m.phase.Waiting? {
        assert more[..m.mark] == log[..m.mark] && more[..m.mark - 1] == log[..m.mark - 1];
        NoticesMore(log, e, m.mark, COOLING_STARTED);
        NoticesMore(log, e, m.mark, COOLING_FINISHED);
      } else {
        assert more[r.mark..] == [];
      }
    }
  }

  lemma EntryTime(t: Task, m: Machine, e: Entry)
    requires Step(t, m, e).phase != Lost
    ensures Step(t, m, e).now == e.at
  {
    hide Advance;
  }

  lemma NoticesMore(log: seq<Entry>, e: Entry, k: nat, what: byte)
    requires k <= |log|
    ensures Notices((log + [e])[k..], what) == Notices(log[k..], what) + if IsNotice(e, what) then 1 else 0
  {
    assert (log + [e])[k..] == log[k..] + [e];
    assert (log[k..] + [e])[..|log[k..]|] == log[k..];
  }

  /**
   The wait for the labels, counted over the log: from the entry with which the job was out,
   and with the cooling notifications since.
   */
  lemma {:induction false} WaitIsBoundedByFrames(t: Task, log: seq<Entry>, e: Entry) returns (k: nat)
    requires Replay(t, log).phase.Waiting? && Prompt(t, t.cfg.perPage, log + [e])
    ensures IsOut(t, log, k)
    ensures e.at <= log[k - 1].at + (t.job.pages + Notices(log[k..], COOLING_FINISHED)) * t.cfg.perPage +
                    Notices(log[k..], COOLING_STARTED) * t.cfg.cooling
  {
    hide Replay, Prompt, Notices, IsOut;
    k := Replay(t, log).mark;
    CoolingOfRun(t, log);
    WaitIsBounded(t, log, e);
    OutIsIn(t, log, k);
  }

  lemma OutIsIn(t: Task, log: seq<Entry>, k: nat)
    requires IsOut(t, log, k)
    ensures 0 < k <= |log|
  {
  }

  lemma PromptFront(t: Task, lap: nat, log: seq<Entry>, e: Entry)
    requires Prompt(t, lap, log + [e])
    ensures Prompt(t, lap, log) && PromptStep(Replay(t, log), e)
  {
    hide Replay, PromptStep, BriskStep;
    assert (log + [e])[..|log|] == log;
  }

  lemma PerPages(c: nat, p: nat, r: nat, per: nat)
    requires c < p
    ensures c * per + (r + 1) * per <= (p + r) * per
  {
    Product(c + 1, p, per);
    assert c * per + (r + 1) * per == (c + 1) * per + r * per;
    assert (p + r) * per == p * per + r * per;
  }

  lemma Product(a: nat, b: nat, d: nat)
    requires a <= b
    ensures a * d <= b * d
  {
  }

  /** No run that has ended took longer than its status requests, writes, labels and cooling allow. */
  lemma {:induction false} RunIsBounded(t: Task, lap: nat, log: seq<Entry>)
    requires Replay(t, log).phase == Finished && Prompt(t, lap, log)
    ensures var m, p := Replay(t, log), t.cfg.preflight;
      m.now <= 1000 + m.asks * (p + 1000) + p + m.writing +
        (if m.res.outcome == Printed then Prior(m) else m.res.completed) * lap +
        (m.resumed + 1) * t.cfg.perPage + m.cooled * t.cfg.cooling + p + 2 * t.cfg.settle
  {
    hide Replay;
    var m := Replay(t, log);
    TimesOfRun(t, lap, log);
    TimesIsProduct(m.asks, t.cfg.preflight + 1000);
    AllowedIs(t, lap, m.resumed, m.cooled, m.res.completed);
    AllowedIs(t, lap, m.resumed, m.cooled, Prior(m));
  }

  /**
   In production: 1 s of draining; for each of the five requests that may be repeated a second and
   2 s of waiting; 2 s for the first reply and 2 s for an inquiry; 20 s for a label, and again after
   each end of cooling; 180 s for each cooling; and 3 s to drain.
   */
  lemma {:induction false} ProductionRunIsBounded(t: Task, log: seq<Entry>)
    requires t.cfg == PRODUCTION && Replay(t, log).phase == Finished && Prompt(t, 20_000, log)
    ensures var m := Replay(t, log);
      && m.asks <= 5
      && m.now <= 1000 + 3000 * m.asks + 2000 + m.writing + 20_000 * (m.res.completed + m.resumed + 1)
          + 180_000 * m.cooled + 2000 + 3000
  {
    hide Replay, Prompt;
    RunIsBounded(t, 20_000, log);
    WriteGrammar(t, log);
  }

  // ----- The hub's side -----

  const QUEUED := 12000
  const MAX_CONFIRM := 60000
  const WRITE_TIMEOUT := 15000
  const LABEL_TIME := 5000

  function Max(a: int, b: int): int {
    if a > b then a else b
  }

  function Min(a: int, b: int): int {
    if a < b then a else b
  }

  /** How long the hub waits for a job to leave the queue before it answers the tablet. */
  function RawConfirmWait(usesBackend: bool, copies: int): int {
    if !usesBackend then QUEUED
    else
      var w := 2 * PRODUCTION.preflight + WRITE_TIMEOUT + PRODUCTION.perPage + (Max(copies, 1) - 1) * LABEL_TIME + 5000;
      Max(QUEUED, Min(w, MAX_CONFIRM))
  }

  /** The cap on the hub's wait binds from five copies on. */
  lemma {:induction false} CapBindsFromFive(copies: int)
    ensures RawConfirmWait(true, copies) ==
      if copies <= 1 then 44000 else if copies <= 4 then 44000 + (copies - 1) * 5000 else 60000
    ensures RawConfirmWait(false, copies) == 12000
  {
    if copies >= 5 {
      assert (copies - 1) * LABEL_TIME >= 20000;
    }
  }

  /**
   A run as the hub counts on: it has ended, the printer was not busy and needed no cooling,
   took the data within one write timeout in all, and reported labels at the rate expected.
   */
  ghost predicate Expected(t: Task, log: seq<Entry>) {
    var m := Replay(t, log);
    && t.cfg == PRODUCTION
    && m.phase == Finished && Prompt(t, 5000, log)
    && m.asks == 0 && m.cooled == 0 && m.resumed == 0 && m.writing <= 15000
  }

  /**
   The verdict on such a run, whatever it is, is in at least a second before the hub stops
   waiting for it, if the job has no more than four labels, or no more than three came out.
   */
  lemma {:induction false} VerdictIsInTime(t: Task, log: seq<Entry>)
    requires Expected(t, log) && (t.job.pages <= 4 || Replay(t, log).res.completed <= 3)
    ensures Replay(t, log).now + 1000 <= RawConfirmWait(true, t.job.pages)
  {
    hide Replay, Prompt;
    var m := Replay(t, log);
    RunIsBounded(t, LABEL_TIME, log);
    VerdictIsSound(t, log);
    CapBindsFromFive(t.job.pages);
  }

  lemma ThenPrompt(t: Task, log: seq<Entry>, e: Entry) returns (more: seq<Entry>, m: Machine)
    requires Prompt(t, LABEL_TIME, log)
    requires PromptStep(Replay(t, log), e) && BriskStep(t, LABEL_TIME, Replay(t, log), e)
    ensures more == log + [e] && m == Replay(t, more) == Step(t, Replay(t, log), e)
    ensures Prompt(t, LABEL_TIME, more)
  {
    hide Step, PromptStep, BriskStep;
    more, m := SendVerdicts.Next(t, log, e);
    assert more[..|more| - 1] == log;
  }

  /** Such runs there are: this printer takes one label and never says a word. */
  lemma {:induction false} MutedRun() returns (t: Task, log: seq<Entry>)
    ensures t.cfg == PRODUCTION && t.job.pages == 1 && Prompt(t, LABEL_TIME, log)
    ensures var m := Replay(t, log);
      m.phase == Finished && m.res.outcome == Unconfirmed && m.now == 22150
      && m.asks == 0 && m.cooled == 0 && m.resumed == 0 && m.writing == 0
  {
    t := OneLabel();
    var m;
    log, m := MutedOpening(t);
    hide Replay, Prompt, CmdReset, Convert;
    log, m := MutedSilence(t, log, m);
    log, m := MutedSending(t, log, m);
    log, m := ThenPrompt(t, log, Entry(22150, Expired));
  }

  lemma MutedOpening(t: Task) returns (log: seq<Entry>, m: Machine)
    requires t == OneLabel()
    ensures m == Replay(t, log) && Prompt(t, LABEL_TIME, log)
    ensures m == Start(t).(phase := Asking(0, 2150), now := 150, count := 2)
  {
    log, m := [], Start(t);
    assert m == Replay(t, log) && Prompt(t, LABEL_TIME, log);
    hide Replay, Prompt, CmdReset, Convert;
    log, m := ThenPrompt(t, log, Entry(150, Expired));
    assert m == Start(t).(phase := Opening, now := 150, count := 1);
    log, m := ThenPrompt(t, log, Entry(150, Wrote(OpeningBytes(), true)));
  }

  lemma MutedSilence(t: Task, front: seq<Entry>, was: Machine) returns (log: seq<Entry>, m: Machine)
    requires t == OneLabel() && was == Replay(t, front) && Prompt(t, LABEL_TIME, front)
    requires was == Start(t).(phase := Asking(0, 2150), now := 150, count := 2)
    ensures m == Replay(t, log) && Prompt(t, LABEL_TIME, log)
    ensures m == Start(t).(phase := Phase.Sending, now := 2150, count := 3, load := [0x1A],
      res := Result(Undecided, [], 1, 0, true))
  {
    hide Replay, Prompt, CmdReset, Convert;
    log, m := ThenPrompt(t, front, Entry(2150, Expired));
  }

  lemma MutedSending(t: Task, front: seq<Entry>, was: Machine) returns (log: seq<Entry>, m: Machine)
    requires t == OneLabel() && was == Replay(t, front) && Prompt(t, LABEL_TIME, front)
    requires was == Start(t).(phase := Phase.Sending, now := 2150, count := 3, load := [0x1A],
      res := Result(Undecided, [], 1, 0, true))
    ensures m == Replay(t, log) && Prompt(t, LABEL_TIME, log)
    ensures m.phase == Waiting(false, 22150) && m.res == was.res && m.now == 2150
    ensures m.asks == 0 && m.cooled == 0 && m.resumed == 0 && m.writing == 0
  {
    hide Replay, Prompt, CmdReset, Convert;
    log, m := ThenPrompt(t, front, Entry(2150, Looked(false)));
    assert m == was.(phase := Chunking, count := 4);
    log, m := ThenPrompt(t, log, Entry(2150, Wrote(Chunk([0x1A], 0), true)));
  }
}
