/** What the log of a run records: which writes were taken, what they put on the wire, how the printer answered. */
module SendRecords {
  import opened Bytes
  import opened Sequences
  import opened CommandStream
  import opened JobParser
  import opened TwoColor
  import opened TwoColorLaws
  import opened Reset
  import opened PrinterStatus
  import opened SendProtocol
  import opened SendLaws
  import opened SendVerdicts

  // ----- Which writes were taken -----

  predicate AllTaken(log: seq<Entry>) {
    forall i | 0 <= i < |log| && log[i].act.Wrote? :: log[i].act.ok
  }

  /** Every write that another one follows was taken. */
  predicate TakenButLast(log: seq<Entry>) {
    forall i, j | 0 <= i < j < |log| && log[i].act.Wrote? && log[j].act.Wrote? :: log[i].act.ok
  }

  /** Nothing has gone wrong with the writes so far. */
  predicate Clean(m: Machine) {
    match m.phase
    case Draining(_, _, then_) => then_ == ThenOpen
    case Inquiring(why) => why == Overdue
    case Listening(why, _, _) => why == Overdue
    case Finished => m.res.outcome in {Printed, Unconfirmed}
    case Failing(_, _) => false
    case Resetting(_) => false
    case SendBroken => false
    case Canceling => false
    case Lost => false
    case _ => true
  }

  /** The job has stopped, and the reset is still to come. */
  predicate Stopping(p: Phase) {
    p.SendBroken? || p.Canceling? || p.Resetting? || (p.Failing? && p.reset)
  }

  /** How a step bears on what was taken. */
  predicate TakesOn(m: Machine, r: Machine, a: Act) {
    && (Clean(r) ==> Clean(m) && (a.Wrote? ==> a.ok))
    && (Stopping(r.phase) ==> Clean(m) || (Stopping(m.phase) && !a.Wrote?))
  }

  lemma TakesFirst(t: Task, m: Machine, a: Act)
    requires Shape(t, m) && (Asks(m.phase) || Sends(m.phase))
    ensures TakesOn(m, Advance(t, m, a), a)
  {
    hide Problems, Convert, Objections, LoadFor, CmdReset, OpeningBytes, Chunk, ReasonList;
  }

  lemma TakesLater(t: Task, m: Machine, a: Act)
    requires Shape(t, m) && !Asks(m.phase) && !Sends(m.phase)
    requires m.phase.Inquiring? ==> m.res.completed < t.job.pages
    ensures TakesOn(m, Advance(t, m, a), a)
  {
    hide Problems, Convert, Objections, LoadFor, CmdReset, OpeningBytes, Chunk, ReasonList;
  }

  lemma StepTaken(t: Task, m: Machine, e: Entry)
    requires Shape(t, m) && (m.phase.Inquiring? ==> m.res.completed < t.job.pages)
    requires Step(t, m, e).phase != Lost
    ensures TakesOn(m, Step(t, m, e), e.act)
  {
    var n := Tick(m, e);
    assert Shape(t, n) && Clean(n) == Clean(m);
    hide Advance, Shape, Clean;
    if Asks(m.phase) || Sends(m.phase) {
      TakesFirst(t, n, e.act);
    } else {
      TakesLater(t, n, e.act);
    }
  }

  lemma TakenMore(log: seq<Entry>)
    requires log != []
    ensures var front, a := log[..|log| - 1], log[|log| - 1].act;
      && (AllTaken(front) && (a.Wrote? ==> a.ok) ==> AllTaken(log))
      && (AllTaken(front) || (TakenButLast(front) && !a.Wrote?) ==> TakenButLast(log))
  {
    var front := log[..|log| - 1];
    assert forall i | 0 <= i < |front| :: front[i] == log[i];
  }

  lemma {:induction false} TakenOfRun(t: Task, log: seq<Entry>)
    requires Replay(t, log).phase != Lost
    ensures Clean(Replay(t, log)) ==> AllTaken(log)
    ensures Clean(Replay(t, log)) || Stopping(Replay(t, log).phase) ==> TakenButLast(log)
    decreases |log|
  {
    if log != [] {
      var front, e := log[..|log| - 1], log[|log| - 1];
      hide Step, Shape, Clean, Stopping, AllTaken, TakenButLast;
      LostStays(t, Replay(t, front), e);
      TakenOfRun(t, front);
      TraceOfRun(t, front);
      OverdueInRun(t, front);
      StepTaken(t, Replay(t, front), e);
      TakenMore(log);
    }
  }

  lemma OverdueInRun(t: Task, log: seq<Entry>)
    ensures Replay(t, log).phase.Inquiring? ==> Replay(t, log).res.completed < t.job.pages
  {
    hide Replay;
    if Replay(t, log).phase.Inquiring? {
      TallyOfRun(t, log);
    }
  }

  // ----- What is on the wire -----

  /**
   The bytes that have reached the printer: all of a write that was taken, and any part of the
   front of one that was not.
   */
  ghost predicate OnWire(log: seq<Entry>, wire: seq<byte>)
    decreases |log|
  {
    if log == [] then wire == []
    else
      var front, a := log[..|log| - 1], log[|log| - 1].act;
      if !a.Wrote? then OnWire(front, wire)
      else exists n: nat | n <= |a.bytes| && n <= |wire| ::
        && (a.ok ==> n == |a.bytes|)
        && wire[|wire| - n..] == a.bytes[..n]
        && OnWire(front, wire[..|wire| - n])
  }

  lemma JoinedMore(pieces: seq<seq<byte>>, b: seq<byte>)
    ensures Joined(pieces + [b]) == Joined(pieces) + b
  {
    assert (pieces + [b])[..|pieces|] == pieces;
  }

  lemma {:induction false} WireIsWrites(log: seq<Entry>, wire: seq<byte>)
    requires OnWire(log, wire)
    ensures AllTaken(log) ==> wire == Joined(Writes(log))
    ensures TakenButLast(log) ==> wire <= Joined(Writes(log))
    decreases |log|
  {
    if log != [] {
      var front, e := log[..|log| - 1], log[|log| - 1];
      FrontTaken(log);
      WritesMore(log);
      hide AllTaken, TakenButLast, Joined, Writes;
      if e.act.Wrote? {
        var n := LastPart(log, wire);
        hide OnWire;
        WireIsWrites(front, wire[..|wire| - n]);
        JoinedMore(Writes(front), e.act.bytes);
        PartArrived(Joined(Writes(front)), e.act.bytes, n, wire);
      } else {
        WireIsWrites(front, wire);
      }
    }
  }

  lemma WritesMore(log: seq<Entry>)
    requires log != []
    ensures var front, e := log[..|log| - 1], log[|log| - 1];
      Writes(log) == if e.act.Wrote? then Writes(front) + [e.act.bytes] else Writes(front)
  {
    EmptyEnds(Writes(log[..|log| - 1]));
  }

  /** n bytes of b have arrived after what has of j. */
  lemma PartArrived(j: seq<byte>, b: seq<byte>, n: nat, wire: seq<byte>)
    requires n <= |b| && n <= |wire| && wire[|wire| - n..] == b[..n]
    ensures wire[..|wire| - n] == j ==> wire <= j + b && (n == |b| ==> wire == j + b)
  {
    TakeDrop(wire, |wire| - n);
    TakeDrop(b, n);
  }

  lemma FrontTaken(log: seq<Entry>)
    requires log != []
    ensures var front, a := log[..|log| - 1], log[|log| - 1].act;
      && (AllTaken(log) ==> AllTaken(front) && (a.Wrote? ==> a.ok))
      && (TakenButLast(log) ==> TakenButLast(front) && (a.Wrote? ==> AllTaken(front)))
  {
    var front := log[..|log| - 1];
    assert forall i | 0 <= i < |front| :: front[i] == log[i];
  }

  /** How much of the last write arrived. */
  lemma LastPart(log: seq<Entry>, wire: seq<byte>) returns (n: nat)
    requires OnWire(log, wire) && log != [] && log[|log| - 1].act.Wrote?
    ensures var a := log[|log| - 1].act;
      && n <= |a.bytes| && n <= |wire| && (a.ok ==> n == |a.bytes|)
      && wire[|wire| - n..] == a.bytes[..n] && OnWire(log[..|log| - 1], wire[..|wire| - n])
  {
    var a := log[|log| - 1].act;
    n :| n <= |a.bytes| && n <= |wire| && (a.ok ==> n == |a.bytes|)
         && wire[|wire| - n..] == a.bytes[..n] && OnWire(log[..|log| - 1], wire[..|wire| - n]);
  }

  // ----- The reset -----

  /** The writes that follow the job: a reset once at most, and only where the machine resets. */
  predicate AfterGoesOn(m: Machine, r: Machine, a: Act) {
    || r.phase == Lost
    || (r.after == m.after && (Wiped in m.after ==> !a.Wrote?))
    || (a.Wrote? && a.bytes == STATUS_REQUEST && r.after == m.after + [Asked])
    || (a.Wrote? && a.bytes == CmdReset() && r.after == m.after + [Wiped] && Wiped !in m.after &&
        (m.phase.Resetting? || m.phase.Canceling?))
  }

  lemma AfterFirst(t: Task, m: Machine, a: Act)
    requires Shape(t, m) && (Asks(m.phase) || Sends(m.phase))
    ensures AfterGoesOn(m, Advance(t, m, a), a)
  {
    hide Problems, Convert, Objections, LoadFor, CmdReset, OpeningBytes, Chunk, ReasonList;
  }

  lemma AfterLater(t: Task, m: Machine, a: Act)
    requires Shape(t, m) && (Inquires(m.phase) || Ends(m.phase))
    ensures AfterGoesOn(m, Advance(t, m, a), a)
  {
    hide Problems, Convert, Objections, LoadFor, CmdReset, OpeningBytes, Chunk, ReasonList;
  }

  lemma StepAfter(t: Task, m: Machine, e: Entry)
    requires Shape(t, m)
    ensures AfterGoesOn(m, Step(t, m, e), e.act)
  {
    if e.at >= m.now {
      var n := Tick(m, e);
      assert Shape(t, n);
      hide Advance, Shape;
      if Asks(m.phase) || Sends(m.phase) {
        AfterFirst(t, n, e.act);
      } else {
        AfterLater(t, n, e.act);
      }
    }
  }

  lemma NothingYet(t: Task)
    ensures Replay(t, []).after == []
  {
  }

  /** Where the run resets the printer; after that nothing but an inquiry is written. */
  lemma {:induction false} ResetOfRun(t: Task, log: seq<Entry>) returns (k: nat)
    requires Replay(t, log).phase != Lost && Wiped in Replay(t, log).after
    ensures k < |log| && log[k].act.Wrote? && log[k].act.bytes == CmdReset()
    ensures Replay(t, log[..k]).phase.Resetting? || Replay(t, log[..k]).phase.Canceling?
    ensures forall i | k < i < |log| && log[i].act.Wrote? :: log[i].act.bytes == STATUS_REQUEST
    decreases |log|
  {
    NothingYet(t);
    hide Step, Shape, CmdReset;
    var n := |log| - 1;
    var front, e := log[..n], log[n];
    var m := Replay(t, front);
    LostStays(t, m, e);
    TraceOfRun(t, front);
    hide Replay;
    StepAfter(t, m, e);
    if Wiped in m.after {
      k := ResetOfRun(t, front);
      assert front[..k] == log[..k];
      forall i | k < i < |log| && log[i].act.Wrote? ensures log[i].act.bytes == STATUS_REQUEST {
        assert i < n ==> front[i] == log[i];
      }
    } else {
      k := n;
    }
  }

  // ----- When a job is refused -----

  /** Entry i is the reply that decides whether the job is sent: not a busy one, or the last that is asked for. */
  predicate Decides(t: Task, log: seq<Entry>, i: nat, st: Status) {
    && i < |log| && log[i].act == Got(st) && IsReply(st)
    && (var p := Replay(t, log[..i]).phase;
        p.Asking? && (!Busy(st) || p.attempt >= t.cfg.busyRetries))
  }

  /** On the way from a refusal to its end. */
  predicate Refusing(m: Machine, ps: seq<Problem>) {
    || m.phase == Lost
    || (m.phase == Failing(ps, false) && NothingSent(m))
    || (m.phase == Finished && m.res.outcome == Failed && m.res.reasons == ReasonList(ps) && NothingSent(m))
  }

  /** The job is being sent, was attempted, or the printer was reset on account of it. */
  predicate Underway(m: Machine) {
    || m.phase == Lost
    || m.chunks > 0 || m.after != []
    || (m.load != [] && (m.phase.Sending? || m.phase.Chunking? || Stopping(m.phase)))
  }

  lemma RefusingStays(t: Task, m: Machine, e: Entry, ps: seq<Problem>)
    requires Refusing(m, ps)
    ensures Refusing(Step(t, m, e), ps)
  {
    hide ReasonList;
  }

  lemma UnderwayStays(t: Task, m: Machine, e: Entry)
    requires Underway(m) && m.phase != Finished
    ensures Underway(Step(t, m, e))
  {
    hide Problems, Convert, Objections, LoadFor, CmdReset, OpeningBytes, Chunk, ReasonList;
  }

  /** Where the deciding reply leads. */
  lemma Decided(t: Task, m: Machine, e: Entry, attempt: nat, due: nat)
    requires m.phase == Asking(attempt, due) && Shape(t, m) && Step(t, m, e).phase != Lost
    requires e.act.Got? && IsReply(e.act.st) && (!Busy(e.act.st) || attempt >= t.cfg.busyRetries)
    ensures var r := Step(t, m, e); var ps := Objections(t, e.act.st);
      if ps != [] then Refusing(r, ps) else (LoadFor(t, e.act.st) != [] ==> Underway(r))
  {
    hide Problems, Convert, Objections, LoadFor, CmdReset, OpeningBytes, Chunk, ReasonList;
  }

  lemma {:induction false} RefusingOn(t: Task, log: seq<Entry>, k: nat, ps: seq<Problem>)
    requires k <= |log| && Refusing(Replay(t, log[..k]), ps)
    ensures Refusing(Replay(t, log), ps)
    decreases |log|
  {
    hide Step, Refusing;
    if k == |log| {
      assert log[..k] == log;
    } else {
      var n := |log| - 1;
      assert log[..n][..k] == log[..k];
      RefusingOn(t, log[..n], k, ps);
      RefusingStays(t, Replay(t, log[..n]), log[n], ps);
    }
  }

  lemma {:induction false} UnderwayOn(t: Task, log: seq<Entry>, k: nat)
    requires k <= |log| && Underway(Replay(t, log[..k])) && Replay(t, log).phase != Lost
    ensures Underway(Replay(t, log))
    decreases |log|
  {
    hide Step, Underway;
    if k == |log| {
      assert log[..k] == log;
    } else {
      var n := |log| - 1;
      assert log[..n][..k] == log[..k];
      LostStays(t, Replay(t, log[..n]), log[n]);
      UnderwayOn(t, log[..n], k);
      FinishedIsLast(t, Replay(t, log[..n]), log[n]);
      UnderwayStays(t, Replay(t, log[..n]), log[n]);
    }
  }

  lemma FinishedIsLast(t: Task, m: Machine, e: Entry)
    ensures m.phase == Finished ==> Step(t, m, e).phase == Lost
  {
  }

  lemma {:induction false} LostBefore(t: Task, log: seq<Entry>, k: nat)
    requires k <= |log| && Replay(t, log).phase != Lost
    ensures Replay(t, log[..k]).phase != Lost
    decreases |log|
  {
    hide Step;
    if k == |log| {
      assert log[..k] == log;
    } else {
      var n := |log| - 1;
      LostStays(t, Replay(t, log[..n]), log[n]);
      LostBefore(t, log[..n], k);
      assert log[..n][..k] == log[..k];
    }
  }

  lemma LoadIsSomething(t: Task, st: Status)
    requires Parse(t.data).Accepted?
    ensures LoadFor(t, st) != []
  {
    hide Parse, Convert;
    AcceptedIsSomething(t.data);
    if Convert(t.data).Rewritten? {
      RewriteKeepsMeaning(t.data);
    }
  }

  lemma AcceptedIsSomething(data: seq<byte>)
    requires Parse(data).Accepted?
    ensures data != []
  {
  }

  /**
   Of a run in which the printer answered: it writes the opening and the repeated requests
   and nothing else, no byte of the job and no reset, if and only if the deciding reply has
   a reported error bit, other than about a roll the job does not name, or shows a roll of
   another width or kind than the job names. The job has then failed for exactly the reasons
   held against it.
   */
  lemma {:induction false} RefusedIff(t: Task, log: seq<Entry>, i: nat, st: Status)
    requires Parse(t.data).Accepted? && Replay(t, log).phase == Finished && Decides(t, log, i, st)
    ensures var m, want := Replay(t, log), t.job.media;
      var refused := Writes(log) == [OpeningBytes()] + StatusRequests(m.asks);
      && (refused <==>
          if want.known then
            || !(st.err1 % 8 == 0 && st.err1 < 128 && st.err2 in {0x00, 0x20})
            || (st.mediaWidth != 0 &&
                (st.mediaWidth != want.widthMM
                 || (!(want.kind in {0x0A, 0x4A} && st.mediaType in {0x0A, 0x4A})
                     && !(want.kind in {0x0B, 0x4B} && st.mediaType in {0x0B, 0x4B}))))
          else !(st.err1 % 8 == 0 && st.err1 < 128 && st.err2 in {0x00, 0x01, 0x20, 0x21}))
      && (refused ==> m.res.outcome == Failed && m.res.reasons == ReasonList(Objections(t, st)))
  {
    ObjectionsIff(t, st);
    hide Step, Parse, Problems, Objections, MediaMismatch, LoadFor, ReasonList, OpeningBytes, Decides, Replay, Writes;
    hide Refusing, Underway;
    ObjectedIff(t, log, i, st);
  }

  lemma ObjectedIff(t: Task, log: seq<Entry>, i: nat, st: Status)
    requires Parse(t.data).Accepted? && Replay(t, log).phase == Finished && Decides(t, log, i, st)
    ensures var m := Replay(t, log);
      var refused := Writes(log) == [OpeningBytes()] + StatusRequests(m.asks);
      && (refused <==> Objections(t, st) != [])
      && (refused ==> m.res.outcome == Failed && m.res.reasons == ReasonList(Objections(t, st)))
  {
    var m, ps := Replay(t, log), Objections(t, st);
    hide Step, Parse, Problems, Objections, MediaMismatch, LoadFor, ReasonList, OpeningBytes, Decides, Replay, Writes;
    hide Refusing, Underway;
    AfterDecision(t, log, i, st);
    WriteGrammar(t, log);
    if ps != [] {
      RefusingOn(t, log, i + 1, ps);
      RefusedEnd(m, ps);
    } else {
      LoadIsSomething(t, st);
      UnderwayOn(t, log, i + 1);
      UnderwayEnd(m);
    }
  }

  /** So a clean reply with the width and the kind that the job names never refuses it. */
  lemma {:induction false} RightRollIsTaken(t: Task, log: seq<Entry>, i: nat, st: Status)
    requires Parse(t.data).Accepted? && Replay(t, log).phase == Finished && Decides(t, log, i, st)
    requires st.err1 == 0 && st.err2 == 0
    requires t.job.media.known && st.mediaWidth == t.job.media.widthMM && st.mediaType == t.job.media.kind
    requires st.mediaType in {0x0A, 0x0B, 0x4A, 0x4B}
    ensures Writes(log) != [OpeningBytes()] + StatusRequests(Replay(t, log).asks)
  {
    hide Parse, Replay, Decides, Writes, OpeningBytes, Objections, ReasonList;
    RefusedIff(t, log, i, st);
  }

  lemma AfterDecision(t: Task, log: seq<Entry>, i: nat, st: Status)
    requires Replay(t, log).phase != Lost && Decides(t, log, i, st)
    ensures i < |log|
    ensures var r, ps := Replay(t, log[..i + 1]), Objections(t, st);
      if ps != [] then Refusing(r, ps) else (LoadFor(t, st) != [] ==> Underway(r))
  {
    var p := Replay(t, log[..i]);
    hide Step, Objections, LoadFor, Busy, IsReply, Shape, Refusing, Underway;
    assert log[..i + 1][..i] == log[..i];
    LostBefore(t, log, i);
    LostBefore(t, log, i + 1);
    TraceOfRun(t, log[..i]);
    Decided(t, p, log[i], p.phase.attempt, p.phase.due);
  }

  // ----- What is sent -----

  /** What is sent has been settled. */
  predicate Settled(p: Phase) {
    if p.Draining? || p.Resetting? then p.then_ != ThenOpen else !Asks(p)
  }

  predicate KeepsLoad(m: Machine, r: Machine) {
    r.phase == Lost || (Settled(r.phase) && r.load == m.load)
  }

  lemma SendsLoad(t: Task, m: Machine, a: Act)
    requires Settled(m.phase) && Sends(m.phase)
    ensures KeepsLoad(m, Advance(t, m, a))
  {
    hide Problems, Convert, Objections, LoadFor, CmdReset, OpeningBytes, Chunk, ReasonList;
  }

  lemma InquiresLoad(t: Task, m: Machine, a: Act)
    requires Settled(m.phase) && Inquires(m.phase)
    ensures KeepsLoad(m, Advance(t, m, a))
  {
    hide Problems, Convert, Objections, LoadFor, CmdReset, OpeningBytes, Chunk, ReasonList;
  }

  lemma EndsLoad(t: Task, m: Machine, a: Act)
    requires Settled(m.phase) && (Ends(m.phase) || m.phase.Draining?)
    ensures KeepsLoad(m, Advance(t, m, a))
  {
    hide Problems, Convert, Objections, LoadFor, CmdReset, OpeningBytes, Chunk, ReasonList;
  }

  lemma LoadKept(t: Task, m: Machine, a: Act)
    requires Settled(m.phase)
    ensures KeepsLoad(m, Advance(t, m, a))
  {
    hide Advance, KeepsLoad;
    if Sends(m.phase) {
      SendsLoad(t, m, a);
    } else if Inquires(m.phase) {
      InquiresLoad(t, m, a);
    } else {
      EndsLoad(t, m, a);
    }
  }

  lemma {:induction false} LoadStays(t: Task, log: seq<Entry>, k: nat)
    requires k <= |log| && Settled(Replay(t, log[..k]).phase) && Replay(t, log).phase != Lost
    ensures Settled(Replay(t, log).phase) && Replay(t, log).load == Replay(t, log[..k]).load
    decreases |log|
  {
    if k == |log| {
      assert log[..k] == log;
    } else {
      var n := |log| - 1;
      var m := Replay(t, log[..n]);
      LastStep(t, log);
      assert log[..n][..k] == log[..k];
      hide Replay, Settled, Advance;
      LoadStays(t, log[..n], k);
      LoadKept(t, Tick(m, log[n]), log[n].act);
    }
  }

  /** The deciding reply settles what is sent, if it does not refuse the job. */
  lemma LoadDecided(t: Task, m: Machine, e: Entry)
    requires m.phase.Asking? && Step(t, m, e).phase != Lost
    requires e.act.Got? && IsReply(e.act.st) && (!Busy(e.act.st) || m.phase.attempt >= t.cfg.busyRetries)
    ensures var r := Step(t, m, e);
      Settled(r.phase) && (Objections(t, e.act.st) == [] ==> r.load == LoadFor(t, e.act.st))
  {
    hide Problems, Convert, Objections, LoadFor, CmdReset, OpeningBytes, Chunk, ReasonList;
  }

  lemma LoadForIs(t: Task, st: Status)
    requires Parse(t.data).Accepted?
    ensures LoadFor(t, st) ==
      if st.textColor >= 128 && !t.job.twoColor && All(Lex(t.data).cmds, Convertible)
      then RenderAll(RecolorAll(Lex(t.data).cmds)) else t.data
  {
    hide Parse, TwoColorRoll, Lex, RenderAll, RecolorAll;
    FlagsByBits(st);
    RewrittenIff(t.data);
    if Convert(t.data).Rewritten? {
      ConvertIs(t.data);
    }
  }

  lemma ConvertIs(data: seq<byte>)
    requires Convert(data).Rewritten?
    ensures Convert(data).data == RenderAll(RecolorAll(Lex(data).cmds))
  {
  }

  /**
   What is sent after a reply that does not refuse the job: to a red/black roll, the high bit
   of the text colour, a job in one colour goes in two if all of its commands can be
   converted; in any other case the job goes as it is.
   */
  lemma {:induction false} LoadIff(t: Task, log: seq<Entry>, i: nat, st: Status)
    requires Parse(t.data).Accepted? && Replay(t, log).phase == Finished && Decides(t, log, i, st)
    requires Writes(log) != [OpeningBytes()] + StatusRequests(Replay(t, log).asks)
    ensures Replay(t, log).load ==
      if st.textColor >= 128 && !t.job.twoColor && All(Lex(t.data).cmds, Convertible)
      then RenderAll(RecolorAll(Lex(t.data).cmds)) else t.data
  {
    var p := Replay(t, log[..i]);
    assert i < |log| && p.phase.Asking?;
    assert IsReply(st) && (!Busy(st) || p.phase.attempt >= t.cfg.busyRetries) && log[i].act == Got(st);
    hide Parse, Step, Objections, LoadFor, Busy, IsReply, Settled, Writes, OpeningBytes, Decides, ReasonList;
    ObjectedIff(t, log, i, st);
    assert log[..i + 1][..i] == log[..i];
    LostBefore(t, log, i + 1);
    LoadDecided(t, p, log[i]);
    LoadStays(t, log, i + 1);
    LoadForIs(t, st);
  }

  lemma RefusedEnd(m: Machine, ps: seq<Problem>)
    requires Refusing(m, ps) && m.phase == Finished
    ensures m.res.outcome == Failed && m.res.reasons == ReasonList(ps)
    ensures [OpeningBytes()] + StatusRequests(m.asks) + Pieces(m.load, m.chunks) + AfterWrites(m.after) ==
            [OpeningBytes()] + StatusRequests(m.asks)
  {
    hide OpeningBytes, ReasonList, Pieces, AfterWrites;
    NothingAfter(m);
  }

  lemma UnderwayEnd(m: Machine)
    requires Underway(m) && m.phase == Finished
    ensures [OpeningBytes()] + StatusRequests(m.asks) + Pieces(m.load, m.chunks) + AfterWrites(m.after) !=
            [OpeningBytes()] + StatusRequests(m.asks)
  {
    hide OpeningBytes, Chunk;
    assert |Pieces(m.load, m.chunks) + AfterWrites(m.after)| > 0;
  }

  lemma NothingAfter(m: Machine)
    requires NothingSent(m)
    ensures [OpeningBytes()] + StatusRequests(m.asks) + Pieces(m.load, m.chunks) + AfterWrites(m.after) ==
            [OpeningBytes()] + StatusRequests(m.asks)
  {
    hide OpeningBytes, Chunk;
    assert Pieces(m.load, 0) == [] && AfterWrites([]) == [];
  }
}
