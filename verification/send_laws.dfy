/** What holds of every run of Send, proved over the machine every run follows. */
module SendLaws {
  import opened Bytes
  import opened TwoColor
  import opened Reset
  import opened PrinterStatus
  import opened SendProtocol

  // ----- What is written -----

  function WriteOf(e: Entry): seq<seq<byte>> {
    if e.act.Wrote? then [e.act.bytes] else []
  }

  /** The writes of a log, in order, those that failed included. */
  function Writes(log: seq<Entry>): seq<seq<byte>> {
    if log == [] then [] else Writes(log[..|log| - 1]) + WriteOf(log[|log| - 1])
  }

  function StatusRequests(n: nat): (s: seq<seq<byte>>)
    ensures |s| == n
  {
    seq(n, _ => STATUS_REQUEST)
  }

  /** The first n pieces of the job. */
  function Pieces(load: seq<byte>, n: nat): (s: seq<seq<byte>>)
    ensures |s| == n
  {
    seq(n, k requires 0 <= k => Chunk(load, k))
  }

  function AfterWrites(after: seq<After>): (s: seq<seq<byte>>)
    ensures |s| == |after|
  {
    seq(|after|, i requires 0 <= i < |after| => if after[i] == Asked then STATUS_REQUEST else CmdReset())
  }

  predicate BeforeOpening(p: Phase) {
    p == Opening || (p.Draining? && p.then_ == ThenOpen)
  }

  /** What the machine says was written: opening, repeated requests, pieces of the job, what came after. */
  function Trace(m: Machine): seq<seq<byte>> {
    (if BeforeOpening(m.phase) then [] else [OpeningBytes()]) + StatusRequests(m.asks) +
    Pieces(m.load, m.chunks) + AfterWrites(m.after)
  }

  /** Nothing of the job was attempted. */
  predicate NothingSent(m: Machine) {
    m.load == [] && m.chunks == 0 && m.after == []
  }

  /** All of the job was attempted. */
  predicate AllSent(m: Machine) {
    m.chunks * CHUNK >= |m.load|
  }

  /** How far the writes have come, by phase. */
  predicate Shape(t: Task, m: Machine) {
    && m.asks <= t.cfg.busyRetries
    && (m.chunks == 0 || (m.chunks - 1) * CHUNK < |m.load|)
    && match m.phase
       case Draining(_, _, ThenOpen) => NothingSent(m) && m.asks == 0
       case Draining(_, _, ThenFinish) => m.after in {[Wiped], [Asked, Wiped]} && m.res.outcome == Failed
       case Draining(_, _, ThenInquire(_)) => m.after == [Wiped]
       case Opening => NothingSent(m) && m.asks == 0
       case Asking(k, _) => NothingSent(m) && m.asks == k
       case Resting(k, _) => NothingSent(m) && m.asks == k < t.cfg.busyRetries
       case Reasking(k) => NothingSent(m) && m.asks == k < t.cfg.busyRetries
       case Sending => m.after == [] && !AllSent(m)
       case Chunking => m.after == [] && !AllSent(m)
       case SendBroken => m.after == []
       case Waiting(_, _) => m.after == [] && AllSent(m)
       case Inquiring(Overdue) => m.after == [] && AllSent(m)
       case Inquiring(Stopped(_)) => m.after == [Wiped]
       case Listening(Overdue, _, _) => m.after == [Asked] && AllSent(m)
       case Listening(Stopped(_), _, _) => m.after == [Wiped, Asked]
       case Settling(_) => m.after in {[], [Asked]} && AllSent(m)
       case Clearing => m.after in {[], [Asked]} && AllSent(m)
       case Failing(_, true) => m.after in {[], [Asked]} && (m.after == [Asked] ==> AllSent(m))
       case Failing(_, false) => NothingSent(m) || m.after == [Wiped, Asked]
       case Resetting(ThenOpen) => false
       case Resetting(ThenFinish) =>
         m.after in {[], [Asked]} && (m.after == [Asked] ==> AllSent(m)) && m.res.outcome == Failed
       case Resetting(ThenInquire(_)) => m.after == []
       case Canceling => m.after == []
       case Finished => Ended(m)
       case Lost => true
  }

  /** How the writes after the job tell the outcomes apart. */
  predicate Ended(m: Machine) {
    match m.res.outcome
    case Printed => m.after in {[], [Asked]} && AllSent(m)
    case Unconfirmed => m.after == [] && AllSent(m)
    case Canceled => m.after == [Wiped]
    case Failed => NothingSent(m) || m.after in {[Wiped], [Asked, Wiped], [Wiped, Asked]}
    case Undecided => false
  }

  // A step is looked at by what it is part of, so that no proof meets more of the machine than it must.

  predicate Asks(p: Phase) {
    p.Draining? || p.Opening? || p.Asking? || p.Resting? || p.Reasking?
  }

  predicate Sends(p: Phase) {
    p.Sending? || p.Chunking? || p.SendBroken? || p.Waiting?
  }

  predicate Inquires(p: Phase) {
    p.Inquiring? || p.Listening?
  }

  predicate Ends(p: Phase) {
    !Asks(p) && !Sends(p) && !Inquires(p)
  }

  lemma AfterGrows()
    ensures [] + [Asked] == [Asked] && [Wiped] + [Asked] == [Wiped, Asked]
    ensures [] + [Wiped] == [Wiped] && [Asked] + [Wiped] == [Asked, Wiped]
  {
  }

  lemma ShapeAsking(t: Task, m: Machine, a: Act)
    requires Shape(t, m) && m.phase.Asking?
    ensures Shape(t, Advance(t, m, a))
  {
    hide Problems, Convert, Objections, LoadFor, CmdReset, OpeningBytes, Chunk, ReasonList;
  }

  lemma ShapeAsks(t: Task, m: Machine, a: Act)
    requires Shape(t, m) && Asks(m.phase) && !m.phase.Asking?
    ensures Shape(t, Advance(t, m, a))
  {
    hide Problems, Convert, Objections, LoadFor, CmdReset, OpeningBytes, Chunk, ReasonList;
    AfterGrows();
  }

  lemma ShapeSends(t: Task, m: Machine, a: Act)
    requires Shape(t, m) && Sends(m.phase)
    ensures Shape(t, Advance(t, m, a))
  {
    hide Problems, Convert, Objections, LoadFor, CmdReset, OpeningBytes, Chunk, ReasonList;
    AfterGrows();
  }

  lemma ShapeInquires(t: Task, m: Machine, a: Act)
    requires Shape(t, m) && Inquires(m.phase)
    ensures Shape(t, Advance(t, m, a))
  {
    hide Problems, Convert, Objections, LoadFor, CmdReset, OpeningBytes, Chunk, ReasonList;
    AfterGrows();
  }

  lemma ShapeFails(t: Task, m: Machine, a: Act)
    requires Shape(t, m) && (m.phase.Failing? || m.phase.Resetting? || m.phase.Canceling?)
    ensures Shape(t, Advance(t, m, a))
  {
    hide Problems, Convert, Objections, LoadFor, CmdReset, OpeningBytes, Chunk, ReasonList;
    AfterGrows();
  }

  lemma ShapeEnds(t: Task, m: Machine, a: Act)
    requires Shape(t, m) && Ends(m.phase) && !m.phase.Failing? && !m.phase.Resetting? && !m.phase.Canceling?
    ensures Shape(t, Advance(t, m, a))
  {
    hide Problems, Convert, Objections, LoadFor, CmdReset, OpeningBytes, Chunk, ReasonList;
    AfterGrows();
  }

  lemma StepShape(t: Task, m: Machine, e: Entry)
    requires Shape(t, m)
    ensures Shape(t, Step(t, m, e))
  {
    if e.at >= m.now {
      var n := Tick(m, e);
      assert Shape(t, n);
      hide Advance, Shape;
      if m.phase.Asking? {
        ShapeAsking(t, n, e.act);
      } else if Asks(m.phase) {
        ShapeAsks(t, n, e.act);
      } else if Sends(m.phase) {
        ShapeSends(t, n, e.act);
      } else if Inquires(m.phase) {
        ShapeInquires(t, n, e.act);
      } else if m.phase.Failing? || m.phase.Resetting? || m.phase.Canceling? {
        ShapeFails(t, n, e.act);
      } else {
        ShapeEnds(t, n, e.act);
      }
    }
  }

  // What each entry adds to the writes.

  lemma TraceGrows(m: Machine)
    ensures Pieces(m.load, 0) == [] && AfterWrites([]) == []
    ensures StatusRequests(m.asks + 1) == StatusRequests(m.asks) + [STATUS_REQUEST]
    ensures Pieces(m.load, m.chunks + 1) == Pieces(m.load, m.chunks) + [Chunk(m.load, m.chunks)]
    ensures AfterWrites(m.after + [Asked]) == AfterWrites(m.after) + [STATUS_REQUEST]
    ensures AfterWrites(m.after + [Wiped]) == AfterWrites(m.after) + [CmdReset()]
  {
    hide Chunk, CmdReset;
  }

  predicate SameLoad(m: Machine, r: Machine) {
    r.chunks == m.chunks && (r.load == m.load || m.chunks == 0)
  }

  /** The parts of the trace are as they were, or one write was added where nothing follows it yet. */
  predicate Grew(m: Machine, r: Machine, w: seq<seq<byte>>) {
    if w == [OpeningBytes()] && BeforeOpening(m.phase) then
      m.asks == r.asks == 0 && m.chunks == r.chunks == 0 && m.after == r.after == [] && !BeforeOpening(r.phase)
    else
      && BeforeOpening(r.phase) == BeforeOpening(m.phase)
      && (|| (w == [] && r.asks == m.asks && SameLoad(m, r) && r.after == m.after)
          || (w == [STATUS_REQUEST] && r.asks == m.asks + 1 && m.chunks == r.chunks == 0 && m.after == r.after == [])
          || (w == [Chunk(m.load, m.chunks)] && r.asks == m.asks && r.chunks == m.chunks + 1 && r.load == m.load &&
              m.after == r.after == [])
          || (w == [STATUS_REQUEST] && r.asks == m.asks && SameLoad(m, r) && r.after == m.after + [Asked])
          || (w == [CmdReset()] && r.asks == m.asks && SameLoad(m, r) && r.after == m.after + [Wiped]))
  }

  lemma GrewTrace(m: Machine, r: Machine, w: seq<seq<byte>>)
    requires Grew(m, r, w)
    ensures Trace(r) == Trace(m) + w
  {
    hide Chunk, CmdReset, OpeningBytes;
    TraceGrows(m);
    TraceGrows(r);
    hide StatusRequests, Pieces, AfterWrites;
  }

  lemma GrewAsking(t: Task, m: Machine, e: Entry)
    requires Shape(t, m) && m.phase.Asking?
    ensures Advance(t, m, e.act).phase == Lost || Grew(m, Advance(t, m, e.act), WriteOf(e))
  {
    hide Problems, Convert, Objections, LoadFor, CmdReset, OpeningBytes, Chunk, ReasonList;
  }

  lemma GrewAsks(t: Task, m: Machine, e: Entry)
    requires Shape(t, m) && Asks(m.phase) && !m.phase.Asking?
    ensures Advance(t, m, e.act).phase == Lost || Grew(m, Advance(t, m, e.act), WriteOf(e))
  {
    hide Problems, Convert, Objections, LoadFor, CmdReset, OpeningBytes, Chunk, ReasonList;
  }

  lemma GrewSends(t: Task, m: Machine, e: Entry)
    requires Shape(t, m) && Sends(m.phase)
    ensures Advance(t, m, e.act).phase == Lost || Grew(m, Advance(t, m, e.act), WriteOf(e))
  {
    hide Problems, Convert, Objections, LoadFor, CmdReset, OpeningBytes, Chunk, ReasonList;
  }

  lemma GrewInquires(t: Task, m: Machine, e: Entry)
    requires Shape(t, m) && Inquires(m.phase)
    ensures Advance(t, m, e.act).phase == Lost || Grew(m, Advance(t, m, e.act), WriteOf(e))
  {
    hide Problems, Convert, Objections, LoadFor, CmdReset, OpeningBytes, Chunk, ReasonList;
  }

  lemma GrewEnds(t: Task, m: Machine, e: Entry)
    requires Shape(t, m) && Ends(m.phase)
    ensures Advance(t, m, e.act).phase == Lost || Grew(m, Advance(t, m, e.act), WriteOf(e))
  {
    hide Problems, Convert, Objections, LoadFor, CmdReset, OpeningBytes, Chunk, ReasonList;
  }

  lemma StepTrace(t: Task, m: Machine, e: Entry)
    requires Shape(t, m) && Step(t, m, e).phase != Lost
    ensures Trace(Step(t, m, e)) == Trace(m) + WriteOf(e)
  {
    var n := Tick(m, e);
    assert Shape(t, n) && Trace(n) == Trace(m);
    hide Advance, Shape, Grew, Trace;
    if m.phase.Asking? {
      GrewAsking(t, n, e);
    } else if Asks(m.phase) {
      GrewAsks(t, n, e);
    } else if Sends(m.phase) {
      GrewSends(t, n, e);
    } else if Inquires(m.phase) {
      GrewInquires(t, n, e);
    } else {
      GrewEnds(t, n, e);
    }
    GrewTrace(n, Step(t, m, e), WriteOf(e));
  }

  lemma {:induction false} TraceOfRun(t: Task, log: seq<Entry>)
    requires Replay(t, log).phase != Lost
    ensures Shape(t, Replay(t, log)) && Writes(log) == Trace(Replay(t, log))
    decreases |log|
  {
    if log == [] {
      TraceGrows(Start(t));
    } else {
      var front, e := log[..|log| - 1], log[|log| - 1];
      LostStays(t, Replay(t, front), e);
      TraceOfRun(t, front);
      hide Step, Shape, Trace;
      StepShape(t, Replay(t, front), e);
      StepTrace(t, Replay(t, front), e);
    }
  }

  lemma LostStays(t: Task, m: Machine, e: Entry)
    ensures m.phase == Lost ==> Step(t, m, e).phase == Lost
  {
  }

  /** The last entry of a run, and the run before it. */
  lemma LastStep(t: Task, log: seq<Entry>)
    requires log != [] && Replay(t, log).phase != Lost
    ensures var front, e := log[..|log| - 1], log[|log| - 1];
      Replay(t, log) == Step(t, Replay(t, front), e) && Replay(t, front).phase != Lost && log == front + [e]
  {
    hide Step;
    LostStays(t, Replay(t, log[..|log| - 1]), log[|log| - 1]);
  }

  /** What the pieces hold, end to end. */
  function Joined(pieces: seq<seq<byte>>): seq<byte> {
    if pieces == [] then [] else Joined(pieces[..|pieces| - 1]) + pieces[|pieces| - 1]
  }

  /** The first n * CHUNK bytes, or all of them. */
  function Reached(load: seq<byte>, n: nat): (k: nat)
    ensures k <= |load|
  {
    if n * CHUNK < |load| then n * CHUNK else |load|
  }

  lemma ChunkIsNext(load: seq<byte>, n: nat)
    requires n * CHUNK < |load|
    ensures load[..Reached(load, n)] + Chunk(load, n) == load[..Reached(load, n + 1)]
  {
    assert Chunk(load, n) == load[Reached(load, n)..Reached(load, n + 1)];
  }

  lemma PiecesGrow(load: seq<byte>, n: nat)
    ensures Joined(Pieces(load, n + 1)) == Joined(Pieces(load, n)) + Chunk(load, n)
  {
    hide Chunk;
    assert Pieces(load, n + 1)[..n] == Pieces(load, n) && Pieces(load, n + 1)[n] == Chunk(load, n);
  }

  /** The pieces are the job's bytes from the first on, in order and without a gap. */
  lemma {:induction false} PiecesArePrefix(load: seq<byte>, n: nat)
    requires n == 0 || (n - 1) * CHUNK < |load|
    ensures Joined(Pieces(load, n)) == load[..if n * CHUNK < |load| then n * CHUNK else |load|]
  {
    assert Reached(load, n) == if n * CHUNK < |load| then n * CHUNK else |load|;
    if n > 0 {
      PiecesArePrefix(load, n - 1);
      PiecesGrow(load, n - 1);
      ChunkIsNext(load, n - 1);
      hide Joined, Pieces, Chunk;
      assert (n - 1) * CHUNK == Reached(load, n - 1);
    }
  }

  /** What may be sent for the job: its data, or its data in two colours. */
  predicate Permitted(t: Task, load: seq<byte>) {
    load == t.data || (!t.job.twoColor && Convert(t.data).Rewritten? && load == Convert(t.data).data)
  }

  predicate LoadOk(t: Task, m: Machine) {
    || Permitted(t, m.load)
    || (NothingSent(m) &&
        (BeforeOpening(m.phase) || m.phase.Asking? || m.phase.Resting? || m.phase.Reasking? ||
         (m.phase.Failing? && !m.phase.reset) || (m.phase == Finished && m.res.outcome == Failed) || m.phase == Lost))
  }

  lemma LoadAsks(t: Task, m: Machine, a: Act)
    requires LoadOk(t, m) && Asks(m.phase)
    ensures LoadOk(t, Advance(t, m, a))
  {
    hide Problems, Convert, Objections, CmdReset, OpeningBytes, Chunk, ReasonList;
  }

  lemma LoadSends(t: Task, m: Machine, a: Act)
    requires LoadOk(t, m) && Sends(m.phase)
    ensures LoadOk(t, Advance(t, m, a))
  {
    hide Problems, Convert, Objections, CmdReset, OpeningBytes, Chunk, ReasonList;
  }

  lemma LoadInquires(t: Task, m: Machine, a: Act)
    requires LoadOk(t, m) && Inquires(m.phase)
    ensures LoadOk(t, Advance(t, m, a))
  {
    hide Problems, Convert, Objections, CmdReset, OpeningBytes, Chunk, ReasonList;
  }

  lemma LoadEnds(t: Task, m: Machine, a: Act)
    requires LoadOk(t, m) && Ends(m.phase)
    ensures LoadOk(t, Advance(t, m, a))
  {
    hide Problems, Convert, Objections, CmdReset, OpeningBytes, Chunk, ReasonList;
  }

  lemma StepLoad(t: Task, m: Machine, e: Entry)
    requires LoadOk(t, m)
    ensures LoadOk(t, Step(t, m, e))
  {
    if e.at >= m.now {
      var n := Tick(m, e);
      assert LoadOk(t, n);
      hide Advance, LoadOk;
      if Asks(m.phase) {
        LoadAsks(t, n, e.act);
      } else if Sends(m.phase) {
        LoadSends(t, n, e.act);
      } else if Inquires(m.phase) {
        LoadInquires(t, n, e.act);
      } else {
        LoadEnds(t, n, e.act);
      }
    }
  }

  lemma {:induction false} LoadOfRun(t: Task, log: seq<Entry>)
    ensures LoadOk(t, Replay(t, log))
    decreases |log|
  {
    if log != [] {
      hide Step, LoadOk;
      LoadOfRun(t, log[..|log| - 1]);
      StepLoad(t, Replay(t, log[..|log| - 1]), log[|log| - 1]);
    } else {
      assert NothingSent(Start(t));
    }
  }

  /**
   The grammar of the writes of every run that has ended: reset and status request; at most
   BusyRetries further status requests; then nothing, or the pieces of one permitted stream
   from the first on, in order and without a gap; then at most one inquiry and one reset,
   in an order that goes with the outcome. The job ends with a reset exactly when it was
   canceled or failed after sending. Which runs write nothing more than requests because
   the printer's answer was held against the job is said by RefusedIff.
   */
  lemma {:induction false} WriteGrammar(t: Task, log: seq<Entry>)
    requires Replay(t, log).phase == Finished
    ensures var m := Replay(t, log);
      && Writes(log) == [OpeningBytes()] + StatusRequests(m.asks) + Pieces(m.load, m.chunks) + AfterWrites(m.after)
      && m.asks <= t.cfg.busyRetries
      && Joined(Pieces(m.load, m.chunks)) <= m.load
      && (m.after != [] ==> Permitted(t, m.load))
      && match m.res.outcome
         case Printed => m.after in {[], [Asked]} && Joined(Pieces(m.load, m.chunks)) == m.load && Permitted(t, m.load)
         case Unconfirmed => m.after == [] && Joined(Pieces(m.load, m.chunks)) == m.load && Permitted(t, m.load)
         case Canceled => m.after == [Wiped]
         case Failed => (m.after == [] && m.chunks == 0) || m.after in {[Wiped], [Asked, Wiped], [Wiped, Asked]}
         case Undecided => false
  {
    hide Replay, Trace, Permitted;
    var m := Replay(t, log);
    TraceOfRun(t, log);
    LoadOfRun(t, log);
    TraceAtEnd(m);
    PiecesArePrefix(m.load, m.chunks);
    assert m.load[..|m.load|] == m.load;
  }

  lemma TraceAtEnd(m: Machine)
    requires m.phase == Finished
    ensures Trace(m) == [OpeningBytes()] + StatusRequests(m.asks) + Pieces(m.load, m.chunks) + AfterWrites(m.after)
  {
  }
}
