/**
 What a status frame means to a run, by its bytes: byte 18 says what kind it is, bytes 8 and 9
 what is wrong, 10 and 11 which roll is loaded, 19 and 22 a phase and a notification. The
 frames are those that reading them delivers, by DeliveredFields.
 */
module FrameBytes {
  import opened Bytes
  import opened PrinterStatus
  import opened SendProtocol
  import opened SendVerdicts
  import SendTimes

  /** No reported error bit is set in bytes 8 and 9. */
  predicate Clean(f: seq<byte>)
    requires |f| == 32
  {
    f[8] % 8 == 0 && f[8] < 128 && f[9] in {0x00, 0x20}
  }

  /** A whole frame. */
  predicate Framed(f: seq<byte>) {
    |f| == 32 && f[0] == 0x80 && f[1] == 0x20
  }

  /** The next entry, if it is the frame f. */
  function FrameAt(at: nat, f: seq<byte>): Entry
    requires Framed(f)
  {
    Entry(at, Got(ParseStatus(f)))
  }

  /**
   While labels are outstanding: 01 is one more label, and moves the timer; 02 stops the job
   whatever else is in the frame; 04 ends it; 05 moves the timer to the cooling time for 03 and
   back for 04; any other frame means nothing if it is clean, and stops the job if not.
   */
  lemma {:induction false} FrameWhileWaiting(t: Task, m: Machine, at: nat, f: seq<byte>)
    requires m.phase.Waiting? && at >= m.now && Framed(f)
    ensures var r, kind := Step(t, m, FrameAt(at, f)), f[18];
      && (kind == 0x01 ==>
          && r.res == m.res.(completed := m.res.completed + 1)
          && (r.phase == if m.res.completed + 1 < t.job.pages then Waiting(true, at + t.cfg.perPage)
                         else Settling(at + t.cfg.settle)))
      && (kind != 0x01 ==> r.res == m.res)
      && (kind == 0x02 ==> (r.phase ==
          Resetting(ThenInquire(if Clean(f) then [Problem(UnexplainedError, "other-error")]
                                else Problems(ParseStatus(f))))))
      && (kind == 0x04 ==> r.phase == Failing([Problem(PoweredOff, "other-error")], true))
      && (kind == 0x05 ==> (r.phase ==
          Waiting(true, if f[22] == 0x03 then at + t.cfg.cooling
                        else if f[22] == 0x04 then at + t.cfg.perPage else m.phase.due)))
      && (kind !in {0x01, 0x02, 0x04, 0x05} ==> (r.phase ==
          if Clean(f) then Waiting(true, m.phase.due) else Resetting(ThenInquire(Problems(ParseStatus(f))))))
  {
    hide Problems;
    CleanIff(ParseStatus(f));
  }

  /** And it counts as a completion, or as one of the two cooling notifications, by the same bytes. */
  lemma {:induction false} FrameIsCounted(at: nat, f: seq<byte>)
    requires Framed(f)
    ensures IsCompletion(FrameAt(at, f)) <==> f[18] == 0x01
    ensures SendTimes.IsNotice(FrameAt(at, f), COOLING_STARTED) <==> f[18] == 0x05 && f[22] == 0x03
    ensures SendTimes.IsNotice(FrameAt(at, f), COOLING_FINISHED) <==> f[18] == 0x05 && f[22] == 0x04
  {
  }

  /**
   While a reply is awaited before the job: only 00 and 02 are one. A printer that is busy, bit 4
   of byte 8, is left alone for a second while there are requests left. Any other reply decides:
   the job is refused for an error bit, unless it is about a roll the job does not name, and for
   a roll of another width or kind.
   */
  lemma {:induction false} FrameWhileAsking(t: Task, m: Machine, at: nat, f: seq<byte>)
    requires m.phase.Asking? && at >= m.now && Framed(f)
    ensures var r, want := Step(t, m, FrameAt(at, f)), t.job.media;
      if f[18] !in {0x00, 0x02} then r.phase == m.phase && r.replies == m.replies
      else if f[8] / 16 % 2 == 1 && m.phase.attempt < t.cfg.busyRetries then
        r.phase == Resting(m.phase.attempt, at + 1000) && r.replies == m.replies + 1
      else
        && r.replies == m.replies + 1
        && (r.phase.Failing? <==>
            if want.known then
              || !Clean(f)
              || (f[10] != 0 && (f[10] != want.widthMM
                  || (!(want.kind in {0x0A, 0x4A} && f[11] in {0x0A, 0x4A})
                      && !(want.kind in {0x0B, 0x4B} && f[11] in {0x0B, 0x4B}))))
            else !(f[8] % 8 == 0 && f[8] < 128 && f[9] in {0x00, 0x01, 0x20, 0x21}))
        && (r.phase.Failing? ==> !r.phase.reset && r.phase.ps == Objections(t, ParseStatus(f)))
  {
    var st := ParseStatus(f);
    FlagsByBits(st);
    ObjectionsIff(t, st);
    hide Objections, LoadFor, Busy, IsReply, HasBit;
    ReplyTaken(t, m, at, st);
    hide Step;
  }

  lemma ReplyTaken(t: Task, m: Machine, at: nat, st: Status)
    requires m.phase.Asking? && at >= m.now
    ensures var r := Step(t, m, Entry(at, Got(st)));
      if !IsReply(st) then r.phase == m.phase && r.replies == m.replies
      else if Busy(st) && m.phase.attempt < t.cfg.busyRetries then
        r.phase == Resting(m.phase.attempt, at + 1000) && r.replies == m.replies + 1
      else
        && r.replies == m.replies + 1
        && (r.phase.Failing? <==> Objections(t, st) != [])
        && (r.phase.Failing? ==> r.phase == Failing(Objections(t, st), false))
  {
    hide Objections, LoadFor, Busy, IsReply;
  }

  /** After an inquiry: 01 is a label that comes late, 00 and 02 the answer, and nothing else counts. */
  lemma {:induction false} FrameWhileListening(t: Task, m: Machine, at: nat, f: seq<byte>)
    requires m.phase.Listening? && at >= m.now && Framed(f)
    ensures var r, p := Step(t, m, FrameAt(at, f)), m.phase;
      && (f[18] == 0x01 ==> r.phase == Listening(p.why, p.late + 1, p.due) && r.res == m.res)
      && (f[18] in {0x00, 0x02} ==>
          r == Inquired(t, Tick(m, FrameAt(at, f)), p.why, p.late, true, Problems(ParseStatus(f))))
      && (f[18] !in {0x00, 0x01, 0x02} ==> r.phase == p && r.res == m.res)
  {
    hide Problems, Inquired;
  }

  /** When all labels are out: the printer is receiving again with 06 in byte 18 and 00 in byte 19. */
  lemma {:induction false} FrameWhileSettling(t: Task, m: Machine, at: nat, f: seq<byte>)
    requires m.phase.Settling? && at >= m.now && Framed(f)
    ensures var r := Step(t, m, FrameAt(at, f));
      r.res == m.res && r.phase == if f[18] == 0x06 && f[19] == 0x00 then Clearing else m.phase
  {
  }
}
