/** The printer's 32-byte status frames, and what the print protocol reads from them. */
module PrinterStatus {
  import opened Bytes
  import opened JobParser

  const STATUS_SIZE := 32

  // Status types (byte 18).
  const TYPE_REPLY: byte := 0x00
  const TYPE_PRINTING_COMPLETED: byte := 0x01
  const TYPE_ERROR_OCCURRED: byte := 0x02
  const TYPE_TURNED_OFF: byte := 0x04
  const TYPE_NOTIFICATION: byte := 0x05
  const TYPE_PHASE_CHANGE: byte := 0x06

  // Notification numbers (byte 22).
  const COOLING_STARTED: byte := 0x03
  const COOLING_FINISHED: byte := 0x04

  datatype Status = Status(
    err1: byte, err2: byte, mediaWidth: byte, mediaType: byte, mediaLength: byte,
    kind: byte, phase: byte, notification: byte, textColor: byte)

  /** A frame starts with 0x80 0x20, the print head mark and the size. */
  predicate IsFrame(b: seq<byte>) {
    |b| >= STATUS_SIZE && b[0] == 0x80 && b[1] == 0x20
  }

  function ParseStatus(b: seq<byte>): Status
    requires IsFrame(b)
  {
    Status(b[8], b[9], b[10], b[11], b[17], b[18], b[19], b[22], b[25])
  }

  // ----- Problems -----

  /** A CUPS printer-state-reason. */
  type Reason = string

  /** What a printed job clears. That every reason ever set is among these is ReasonsAreKnown. */
  const PROBLEM_REASONS: set<Reason> := {
    "media-empty-error", "media-jam-error", "media-needed-error", "cover-open-error", "other-error"}

  /** What is said to the person at the printer, by what it is about rather than by its wording. */
  datatype Advice =
    | NoRoll | CannotFeed | CutterJam | FanFailure | RollMismatch | BufferFull
    | TransmissionError | CoverIsOpen | SystemError
    | WrongRoll | UnexplainedError | NotAnswering | CannotSend | NotAccepted | Disconnected
    | PoweredOff | NoCompletion

  datatype Problem = Problem(advice: Advice, reason: Reason)

  datatype Flag = Flag(bit: nat, problem: Problem)

  /** Error information 1. Bit 4 (in use) is no problem, and bits 3, 5 and 6 are not reported. */
  const ERR1_FLAGS: seq<Flag> := [
    Flag(0, Problem(NoRoll, "media-empty-error")),
    Flag(1, Problem(CannotFeed, "media-empty-error")),
    Flag(2, Problem(CutterJam, "media-jam-error")),
    Flag(7, Problem(FanFailure, "other-error"))]

  /** Error information 2. Bit 5 is not reported. */
  const ERR2_FLAGS: seq<Flag> := [
    Flag(0, Problem(RollMismatch, "media-needed-error")),
    Flag(1, Problem(BufferFull, "other-error")),
    Flag(2, Problem(TransmissionError, "other-error")),
    Flag(3, Problem(BufferFull, "other-error")),
    Flag(4, Problem(CoverIsOpen, "cover-open-error")),
    Flag(6, Problem(CannotFeed, "media-jam-error")),
    Flag(7, Problem(SystemError, "other-error"))]

  /** The problems of the flags set in one error byte, in table order. */
  function Raised(err: byte, flags: seq<Flag>): seq<Problem> {
    if flags == [] then []
    else
      var flag := flags[|flags| - 1];
      Raised(err, flags[..|flags| - 1]) + if HasBit(err, flag.bit) then [flag.problem] else []
  }

  /** The same list with every problem dropped whose advice was given before. */
  function FirstOfEach(ps: seq<Problem>): (r: seq<Problem>) {
    if ps == [] then []
    else
      var front, p := FirstOfEach(ps[..|ps| - 1]), ps[|ps| - 1];
      if Advised(front, p.advice) then front else front + [p]
  }

  predicate Advised(ps: seq<Problem>, a: Advice) {
    exists i :: 0 <= i < |ps| && ps[i].advice == a
  }

  function Problems(s: Status): seq<Problem> {
    FirstOfEach(Raised(s.err1, ERR1_FLAGS) + Raised(s.err2, ERR2_FLAGS))
  }

  /** One of the two loops of Problems: `out` and `seen` carry over from the first to the second. */
  method AddFlags(err: byte, flags: seq<Flag>, out: seq<Problem>, seen: set<Advice>, ghost before: seq<Problem>)
    returns (out': seq<Problem>, seen': set<Advice>)
    requires out == FirstOfEach(before) && forall a :: a in seen <==> Advised(out, a)
    ensures out' == FirstOfEach(before + Raised(err, flags)) && forall a :: a in seen' <==> Advised(out', a)
  {
    hide FirstOfEach, Advised, HasBit;
    out', seen' := out, seen;
    assert before + [] == before;
    for i := 0 to |flags|
      invariant out' == FirstOfEach(before + Raised(err, flags[..i]))
      invariant forall a :: a in seen' <==> Advised(out', a)
    {
      RaisedNext(err, flags, i, before);
      if HasBit(err, flags[i].bit) {
        FirstOfEachLast(before + Raised(err, flags[..i]), flags[i].problem);
        if flags[i].problem.advice !in seen' {
          AdvisedLast(out', flags[i].problem);
          seen' := seen' + {flags[i].problem.advice};
          out' := out' + [flags[i].problem];
        }
      }
    }
    assert flags[..|flags|] == flags;
  }

  lemma RaisedNext(err: byte, flags: seq<Flag>, i: nat, before: seq<Problem>)
    requires i < |flags|
    ensures before + Raised(err, flags[..i + 1]) ==
      if HasBit(err, flags[i].bit) then (before + Raised(err, flags[..i])) + [flags[i].problem]
      else before + Raised(err, flags[..i])
  {
    assert flags[..i + 1][..i] == flags[..i];
  }

  lemma FirstOfEachLast(ps: seq<Problem>, p: Problem)
    ensures FirstOfEach(ps + [p]) ==
            if Advised(FirstOfEach(ps), p.advice) then FirstOfEach(ps) else FirstOfEach(ps) + [p]
  {
    assert (ps + [p])[..|ps|] == ps;
  }

  lemma AdvisedLast(ps: seq<Problem>, p: Problem)
    ensures forall a :: Advised(ps + [p], a) <==> Advised(ps, a) || a == p.advice
  {
    forall a
      ensures Advised(ps + [p], a) <==> Advised(ps, a) || a == p.advice
    {
      assert (ps + [p])[|ps|] == p;
      if Advised(ps, a) {
        var i :| 0 <= i < |ps| && ps[i].advice == a;
        assert (ps + [p])[i].advice == a;
      }
    }
  }

  /** Both tables are gone through, the second with what the first has found; no advice is given twice. */
  method ListProblems(s: Status) returns (out: seq<Problem>)
    ensures out == Problems(s)
  {
    var seen: set<Advice> := {};
    out := [];
    out, seen := AddFlags(s.err1, ERR1_FLAGS, out, seen, []);
    assert [] + Raised(s.err1, ERR1_FLAGS) == Raised(s.err1, ERR1_FLAGS);
    out, seen := AddFlags(s.err2, ERR2_FLAGS, out, seen, Raised(s.err1, ERR1_FLAGS));
  }

  /** All advice that a flag calls for is given, and no other. */
  lemma {:induction false} FirstOfEachIsComplete(ps: seq<Problem>)
    ensures forall a :: Advised(FirstOfEach(ps), a) <==> Advised(ps, a)
    decreases |ps|
  {
    if ps != [] {
      var n := |ps| - 1;
      FirstOfEachIsComplete(ps[..n]);
      var front := FirstOfEach(ps[..n]);
      assert ps == ps[..n] + [ps[n]];
      AdvisedLast(ps[..n], ps[n]);
      AdvisedLast(front, ps[n]);
    }
  }

  predicate Distinct(ps: seq<Problem>) {
    forall i, j | 0 <= i < j < |ps| :: ps[i].advice != ps[j].advice
  }

  /** No advice is given twice, and every problem listed is one that was raised. */
  lemma {:induction false} FirstOfEachIsDistinct(ps: seq<Problem>)
    ensures Distinct(FirstOfEach(ps)) && forall p | p in FirstOfEach(ps) :: p in ps
    decreases |ps|
  {
    if ps != [] {
      var n := |ps| - 1;
      FirstOfEachIsDistinct(ps[..n]);
      DistinctLast(FirstOfEach(ps[..n]), ps[n]);
      assert ps == ps[..n] + [ps[n]];
    }
  }

  lemma DistinctLast(front: seq<Problem>, p: Problem)
    requires Distinct(front)
    ensures var r := if Advised(front, p.advice) then front else front + [p];
      Distinct(r) && forall q | q in r :: q in front || q == p
  {
  }

  /** Some flag of the table is set. */
  predicate AnyFlag(err: byte, flags: seq<Flag>) {
    exists i :: 0 <= i < |flags| && HasBit(err, flags[i].bit)
  }

  lemma {:induction false} RaisedIff(err: byte, flags: seq<Flag>)
    ensures Raised(err, flags) != [] <==> AnyFlag(err, flags)
  {
    if flags != [] {
      var n := |flags| - 1;
      RaisedIff(err, flags[..n]);
      if AnyFlag(err, flags[..n]) {
        var i :| 0 <= i < n && HasBit(err, flags[..n][i].bit);
        assert HasBit(err, flags[i].bit);
      }
      if AnyFlag(err, flags) {
        var i :| 0 <= i < |flags| && HasBit(err, flags[i].bit);
        assert i < n ==> HasBit(err, flags[..n][i].bit);
      }
    }
  }

  /** A status has problems exactly when some reported error bit is set. */
  lemma {:induction false} ProblemsIff(s: Status)
    ensures Problems(s) != [] <==> AnyFlag(s.err1, ERR1_FLAGS) || AnyFlag(s.err2, ERR2_FLAGS)
  {
    var ps := Raised(s.err1, ERR1_FLAGS) + Raised(s.err2, ERR2_FLAGS);
    RaisedIff(s.err1, ERR1_FLAGS);
    RaisedIff(s.err2, ERR2_FLAGS);
    FirstOfEachIsComplete(ps);
    if ps != [] {
      assert Advised(ps, ps[0].advice);
      assert Advised(FirstOfEach(ps), ps[0].advice);
    }
  }

  /** A problem is listed if it is the first raised that gives its advice. */
  lemma {:induction false} FirstOfEachHas(ps: seq<Problem>, p: Problem)
    ensures p in FirstOfEach(ps) <==>
      exists i :: 0 <= i < |ps| && ps[i] == p && forall j | 0 <= j < i :: ps[j].advice != p.advice
    decreases |ps|
  {
    if ps != [] {
      var n := |ps| - 1;
      var front := ps[..n];
      FirstOfEachHas(front, p);
      FirstOfEachIsComplete(front);
      assert forall i | 0 <= i < n :: front[i] == ps[i];
      if p in FirstOfEach(front) {
        var i :| 0 <= i < n && front[i] == p && forall j | 0 <= j < i :: front[j].advice != p.advice;
        assert ps[i] == p && forall j | 0 <= j < i :: ps[j].advice != p.advice;
      }
      if i :| 0 <= i < |ps| && ps[i] == p && forall j | 0 <= j < i :: ps[j].advice != p.advice {
        if i < n {
          assert front[i] == p && forall j | 0 <= j < i :: front[j].advice != p.advice;
        } else {
          assert !Advised(front, p.advice);
        }
      }
    }
  }

  /** Two problems with the same advice are the same problem. */
  predicate OneEach(ps: seq<Problem>) {
    forall i, j | 0 <= i < |ps| && 0 <= j < |ps| && ps[i].advice == ps[j].advice :: ps[i] == ps[j]
  }

  lemma FirstOfBoth(a: seq<Problem>, b: seq<Problem>, p: Problem)
    requires OneEach(a) && OneEach(b)
    ensures p in FirstOfEach(a + b) <==> p in a || (p in b && !Advised(a, p.advice))
  {
    hide FirstOfEach;
    FirstOfEachHas(a + b, p);
    if p in a {
      var i := FirstWith(a, p.advice);
      assert (a + b)[i] == p && forall j | 0 <= j < i :: (a + b)[j].advice != p.advice;
    } else if p in b && !Advised(a, p.advice) {
      var i := FirstWith(b, p.advice);
      assert (a + b)[|a| + i] == p && forall j | 0 <= j < |a| + i :: (a + b)[j].advice != p.advice;
    }
    if Advised(a, p.advice) && p !in a {
      var i :| 0 <= i < |a| && a[i].advice == p.advice;
      assert (a + b)[i].advice == p.advice;
    }
  }

  lemma {:induction false} FirstWith(ps: seq<Problem>, a: Advice) returns (i: nat)
    requires exists k :: 0 <= k < |ps| && ps[k].advice == a
    ensures i < |ps| && ps[i].advice == a && forall j | 0 <= j < i :: ps[j].advice != a
  {
    if ps[0].advice == a {
      i := 0;
    } else {
      var k :| 0 <= k < |ps| && ps[k].advice == a;
      assert ps[1..][k - 1].advice == a;
      i := FirstWith(ps[1..], a);
      i := i + 1;
      assert forall j | 0 < j < i :: ps[j] == ps[1..][j - 1];
    }
  }

  lemma {:induction false} RaisedHas(err: byte, flags: seq<Flag>, p: Problem)
    ensures p in Raised(err, flags) <==>
      exists i :: 0 <= i < |flags| && HasBit(err, flags[i].bit) && flags[i].problem == p
  {
    hide HasBit;
    if flags != [] {
      var n := |flags| - 1;
      RaisedHas(err, flags[..n], p);
      assert forall i | 0 <= i < n :: flags[..n][i] == flags[i];
    }
  }

  lemma RaisedByErr1(err: byte, p: Problem)
    ensures p in Raised(err, ERR1_FLAGS) <==>
      || (p == Problem(NoRoll, "media-empty-error") && err % 2 == 1)
      || (p == Problem(CannotFeed, "media-empty-error") && err / 2 % 2 == 1)
      || (p == Problem(CutterJam, "media-jam-error") && err / 4 % 2 == 1)
      || (p == Problem(FanFailure, "other-error") && err / 128 % 2 == 1)
  {
    hide HasBit, Raised;
    RaisedHas(err, ERR1_FLAGS, p);
    ByteBits(err);
    assert |ERR1_FLAGS| == 4;
    assert HasBit(err, ERR1_FLAGS[0].bit) == HasBit(err, 0) && HasBit(err, ERR1_FLAGS[1].bit) == HasBit(err, 1);
    assert HasBit(err, ERR1_FLAGS[2].bit) == HasBit(err, 2) && HasBit(err, ERR1_FLAGS[3].bit) == HasBit(err, 7);
  }

  lemma RaisedByErr2(err: byte, p: Problem)
    ensures p in Raised(err, ERR2_FLAGS) <==>
      || (p == Problem(RollMismatch, "media-needed-error") && err % 2 == 1)
      || (p == Problem(BufferFull, "other-error") && (err / 2 % 2 == 1 || err / 8 % 2 == 1))
      || (p == Problem(TransmissionError, "other-error") && err / 4 % 2 == 1)
      || (p == Problem(CoverIsOpen, "cover-open-error") && err / 16 % 2 == 1)
      || (p == Problem(CannotFeed, "media-jam-error") && err / 64 % 2 == 1)
      || (p == Problem(SystemError, "other-error") && err / 128 % 2 == 1)
  {
    hide HasBit, Raised;
    RaisedHas(err, ERR2_FLAGS, p);
    ByteBits(err);
    assert |ERR2_FLAGS| == 7;
    assert HasBit(err, ERR2_FLAGS[0].bit) == HasBit(err, 0) && HasBit(err, ERR2_FLAGS[1].bit) == HasBit(err, 1);
    assert HasBit(err, ERR2_FLAGS[2].bit) == HasBit(err, 2) && HasBit(err, ERR2_FLAGS[3].bit) == HasBit(err, 3);
    assert HasBit(err, ERR2_FLAGS[4].bit) == HasBit(err, 4) && HasBit(err, ERR2_FLAGS[5].bit) == HasBit(err, 6);
    assert HasBit(err, ERR2_FLAGS[6].bit) == HasBit(err, 7);
  }

  lemma RaisedOneEach(s: Status)
    ensures OneEach(Raised(s.err1, ERR1_FLAGS)) && OneEach(Raised(s.err2, ERR2_FLAGS))
  {
    hide Raised;
    var a, b := Raised(s.err1, ERR1_FLAGS), Raised(s.err2, ERR2_FLAGS);
    forall i | 0 <= i < |a|
      ensures a[i].reason == match a[i].advice
        case CutterJam => "media-jam-error"
        case FanFailure => "other-error"
        case _ => "media-empty-error"
    {
      RaisedByErr1(s.err1, a[i]);
    }
    forall i | 0 <= i < |b|
      ensures b[i].reason == match b[i].advice
        case RollMismatch => "media-needed-error"
        case CoverIsOpen => "cover-open-error"
        case CannotFeed => "media-jam-error"
        case _ => "other-error"
    {
      RaisedByErr2(s.err2, b[i]);
    }
  }

  lemma AdvisedByErr1(err: byte, x: Advice)
    ensures Advised(Raised(err, ERR1_FLAGS), x) <==>
      || (x == NoRoll && err % 2 == 1) || (x == CannotFeed && err / 2 % 2 == 1)
      || (x == CutterJam && err / 4 % 2 == 1) || (x == FanFailure && err / 128 % 2 == 1)
  {
    hide Raised;
    var a := Raised(err, ERR1_FLAGS);
    if Advised(a, x) {
      var i :| 0 <= i < |a| && a[i].advice == x;
      RaisedByErr1(err, a[i]);
    }
    var p := Problem(x, match x
      case CutterJam => "media-jam-error"
      case FanFailure => "other-error"
      case _ => "media-empty-error");
    RaisedByErr1(err, p);
    if p in a {
      var i :| 0 <= i < |a| && a[i] == p;
    }
  }

  /**
   Which bit of which error byte is which problem. Bits 3 to 6 of the first and bit 5 of the
   second are none; that nothing is fed is said once, as the first byte has it.
   */
  lemma {:induction false} ProblemsByBits(s: Status, p: Problem)
    ensures p in Problems(s) <==>
      || (p == Problem(NoRoll, "media-empty-error") && s.err1 % 2 == 1)
      || (p == Problem(CannotFeed, "media-empty-error") && s.err1 / 2 % 2 == 1)
      || (p == Problem(CutterJam, "media-jam-error") && s.err1 / 4 % 2 == 1)
      || (p == Problem(FanFailure, "other-error") && s.err1 / 128 % 2 == 1)
      || (p == Problem(RollMismatch, "media-needed-error") && s.err2 % 2 == 1)
      || (p == Problem(BufferFull, "other-error") && (s.err2 / 2 % 2 == 1 || s.err2 / 8 % 2 == 1))
      || (p == Problem(TransmissionError, "other-error") && s.err2 / 4 % 2 == 1)
      || (p == Problem(CoverIsOpen, "cover-open-error") && s.err2 / 16 % 2 == 1)
      || (p == Problem(CannotFeed, "media-jam-error") && s.err2 / 64 % 2 == 1 && s.err1 / 2 % 2 == 0)
      || (p == Problem(SystemError, "other-error") && s.err2 / 128 % 2 == 1)
  {
    hide Raised, FirstOfEach, OneEach, Advised;
    var a, b := Raised(s.err1, ERR1_FLAGS), Raised(s.err2, ERR2_FLAGS);
    RaisedOneEach(s);
    FirstOfBoth(a, b, p);
    RaisedByErr1(s.err1, p);
    RaisedByErr2(s.err2, p);
    AdvisedByErr1(s.err1, p.advice);
  }

  /** A status is clean when its first error byte has none of bits 0, 1, 2 and 7, and its second none but bit 5. */
  lemma {:induction false} CleanIff(s: Status)
    ensures Problems(s) == [] <==> s.err1 % 8 == 0 && s.err1 < 128 && s.err2 in {0x00, 0x20}
  {
    hide Problems;
    var ps := Problems(s);
    CleanByte(s.err1, s.err2);
    if ps != [] {
      ProblemsByBits(s, ps[0]);
    } else {
      NoProblemInNone(s);
    }
  }

  lemma CleanByte(a: byte, b: byte)
    ensures a % 8 == 0 && a < 128 <==> a % 2 == a / 2 % 2 == a / 4 % 2 == a / 128 % 2 == 0
    ensures b in {0x00, 0x20} <==>
      b % 2 == b / 2 % 2 == b / 4 % 2 == b / 8 % 2 == b / 16 % 2 == b / 64 % 2 == b / 128 % 2 == 0
  {
    BitSum(a);
    BitSum(b);
    SumIs(a, a % 2, a / 2 % 2, a / 4 % 2, a / 8 % 2, a / 16 % 2, a / 32 % 2, a / 64 % 2, a / 128);
    SumIs(b, b % 2, b / 2 % 2, b / 4 % 2, b / 8 % 2, b / 16 % 2, b / 32 % 2, b / 64 % 2, b / 128);
  }

  lemma SumIs(b: byte, b0: nat, b1: nat, b2: nat, b3: nat, b4: nat, b5: nat, b6: nat, b7: nat)
    requires b0 <= 1 && b1 <= 1 && b2 <= 1 && b3 <= 1 && b4 <= 1 && b5 <= 1 && b6 <= 1 && b7 <= 1
    requires b == b0 + 2 * b1 + 4 * b2 + 8 * b3 + 16 * b4 + 32 * b5 + 64 * b6 + 128 * b7
    ensures b % 8 == 0 && b < 128 <==> b0 == b1 == b2 == b7 == 0
    ensures b in {0x00, 0x20} <==> b0 == b1 == b2 == b3 == b4 == b6 == b7 == 0
  {
  }

  /** The same for a job that names no roll: bit 0 of the second byte, a roll that does not match, is no matter. */
  lemma {:induction false} CleanButRollIff(s: Status)
    ensures (forall p | p in Problems(s) :: p.reason == "media-needed-error") <==>
      s.err1 % 8 == 0 && s.err1 < 128 && s.err2 in {0x00, 0x01, 0x20, 0x21}
  {
    hide Problems;
    var roll := Problem(RollMismatch, "media-needed-error");
    CleanByteButFirst(s.err1, s.err2);
    if forall p | p in Problems(s) :: p.reason == "media-needed-error" {
      OnlyRollProblem(s);
    } else {
      var p :| p in Problems(s) && p.reason != "media-needed-error";
      ProblemsByBits(s, p);
    }
    if s.err1 % 8 == 0 && s.err1 < 128 && s.err2 in {0x00, 0x01, 0x20, 0x21} {
      forall p | p in Problems(s) ensures p.reason == "media-needed-error" {
        ProblemsByBits(s, p);
      }
    }
  }

  lemma CleanByteButFirst(a: byte, b: byte)
    ensures a % 8 == 0 && a < 128 <==> a % 2 == a / 2 % 2 == a / 4 % 2 == a / 128 % 2 == 0
    ensures b in {0x00, 0x01, 0x20, 0x21} <==>
      b / 2 % 2 == b / 4 % 2 == b / 8 % 2 == b / 16 % 2 == b / 64 % 2 == b / 128 % 2 == 0
  {
    CleanByte(a, b);
    BitSum(b);
    SumIsButFirst(b, b % 2, b / 2 % 2, b / 4 % 2, b / 8 % 2, b / 16 % 2, b / 32 % 2, b / 64 % 2, b / 128);
  }

  lemma SumIsButFirst(b: byte, b0: nat, b1: nat, b2: nat, b3: nat, b4: nat, b5: nat, b6: nat, b7: nat)
    requires b0 <= 1 && b1 <= 1 && b2 <= 1 && b3 <= 1 && b4 <= 1 && b5 <= 1 && b6 <= 1 && b7 <= 1
    requires b == b0 + 2 * b1 + 4 * b2 + 8 * b3 + 16 * b4 + 32 * b5 + 64 * b6 + 128 * b7
    ensures b in {0x00, 0x01, 0x20, 0x21} <==> b1 == b2 == b3 == b4 == b6 == b7 == 0
  {
  }

  lemma OnlyRollProblem(s: Status)
    requires forall p | p in Problems(s) :: p.reason == "media-needed-error"
    ensures s.err1 % 2 == 0 && s.err1 / 2 % 2 == 0 && s.err1 / 4 % 2 == 0 && s.err1 / 128 % 2 == 0
    ensures s.err2 / 2 % 2 == 0 && s.err2 / 4 % 2 == 0 && s.err2 / 8 % 2 == 0
    ensures s.err2 / 16 % 2 == 0 && s.err2 / 64 % 2 == 0 && s.err2 / 128 % 2 == 0
  {
    hide Problems;
    ProblemsByBits(s, Problem(NoRoll, "media-empty-error"));
    ProblemsByBits(s, Problem(CannotFeed, "media-empty-error"));
    ProblemsByBits(s, Problem(CutterJam, "media-jam-error"));
    ProblemsByBits(s, Problem(FanFailure, "other-error"));
    ProblemsByBits(s, Problem(BufferFull, "other-error"));
    ProblemsByBits(s, Problem(TransmissionError, "other-error"));
    ProblemsByBits(s, Problem(CoverIsOpen, "cover-open-error"));
    ProblemsByBits(s, Problem(CannotFeed, "media-jam-error"));
    ProblemsByBits(s, Problem(SystemError, "other-error"));
  }

  lemma NoProblemInNone(s: Status)
    requires Problems(s) == []
    ensures s.err1 % 2 == 0 && s.err1 / 2 % 2 == 0 && s.err1 / 4 % 2 == 0 && s.err1 / 128 % 2 == 0
    ensures s.err2 % 2 == 0 && s.err2 / 2 % 2 == 0 && s.err2 / 4 % 2 == 0 && s.err2 / 8 % 2 == 0
    ensures s.err2 / 16 % 2 == 0 && s.err2 / 64 % 2 == 0 && s.err2 / 128 % 2 == 0
  {
    hide Problems;
    ProblemsByBits(s, Problem(NoRoll, "media-empty-error"));
    ProblemsByBits(s, Problem(CannotFeed, "media-empty-error"));
    ProblemsByBits(s, Problem(CutterJam, "media-jam-error"));
    ProblemsByBits(s, Problem(FanFailure, "other-error"));
    ProblemsByBits(s, Problem(RollMismatch, "media-needed-error"));
    ProblemsByBits(s, Problem(BufferFull, "other-error"));
    ProblemsByBits(s, Problem(TransmissionError, "other-error"));
    ProblemsByBits(s, Problem(CoverIsOpen, "cover-open-error"));
    ProblemsByBits(s, Problem(CannotFeed, "media-jam-error"));
    ProblemsByBits(s, Problem(SystemError, "other-error"));
  }

  // ----- The reasons given -----

  /** Every reason is one that a printed job clears. */
  predicate AllClearable(ps: seq<Problem>) {
    forall i | 0 <= i < |ps| :: ps[i].reason in PROBLEM_REASONS
  }

  lemma {:induction false} RaisedClearable(err: byte, flags: seq<Flag>)
    requires forall i | 0 <= i < |flags| :: flags[i].problem.reason in PROBLEM_REASONS
    ensures AllClearable(Raised(err, flags))
  {
    hide HasBit;
    if flags != [] {
      RaisedClearable(err, flags[..|flags| - 1]);
    }
  }

  /** The two tables name no other reasons. */
  lemma {:induction false} ProblemsClearable(s: Status)
    ensures AllClearable(Problems(s))
  {
    hide Raised, FirstOfEach;
    RaisedClearable(s.err1, ERR1_FLAGS);
    RaisedClearable(s.err2, ERR2_FLAGS);
    FirstOfEachIsDistinct(Raised(s.err1, ERR1_FLAGS) + Raised(s.err2, ERR2_FLAGS));
    forall p | p in Problems(s) ensures p.reason in PROBLEM_REASONS {
    }
  }

  /** A status with no more than these two error bytes. */
  function Faulty(err1: byte, err2: byte): Status {
    Status(err1, err2, 62, 0x0A, 0, TYPE_REPLY, 0, 0, 1)
  }

  /** What a printed job clears is what the printer's problems are reported as, and nothing else. */
  lemma {:induction false} ReasonsAreThese(r: Reason)
    ensures r in PROBLEM_REASONS <==> exists s, p :: p in Problems(s) && p.reason == r
  {
    hide Problems;
    if s, p :| p in Problems(s) && p.reason == r {
      ProblemsClearable(s);
      var i :| 0 <= i < |Problems(s)| && Problems(s)[i] == p;
    }
    if r in PROBLEM_REASONS {
      ProblemsByBits(Faulty(1, 0), Problem(NoRoll, "media-empty-error"));
      ProblemsByBits(Faulty(4, 0), Problem(CutterJam, "media-jam-error"));
      ProblemsByBits(Faulty(0, 1), Problem(RollMismatch, "media-needed-error"));
      ProblemsByBits(Faulty(0, 16), Problem(CoverIsOpen, "cover-open-error"));
      ProblemsByBits(Faulty(128, 0), Problem(FanFailure, "other-error"));
    }
  }

  // ----- The other questions asked of a status -----

  predicate Busy(s: Status) {
    HasBit(s.err1, 4)
  }

  /** A red/black roll. */
  predicate TwoColorRoll(s: Status) {
    HasBit(s.textColor, 7)
  }

  predicate IsContinuous(kind: byte) {
    kind == 0x0A || kind == 0x4A
  }

  predicate IsDieCut(kind: byte) {
    kind == 0x0B || kind == 0x4B
  }

  /** The loaded roll and the roll the job wants are both known, and differ. */
  predicate MediaMismatch(s: Status, want: Media) {
    want.known && s.mediaWidth != 0 &&
    !(s.mediaWidth == want.widthMM &&
      ((IsContinuous(want.kind) && IsContinuous(s.mediaType)) || (IsDieCut(want.kind) && IsDieCut(s.mediaType))))
  }

  /** Of a job that names its roll: the loaded one is another if its width is known, and differs or its kind does. */
  lemma {:induction false} MediaMismatchIff(s: Status, want: Media)
    ensures MediaMismatch(s, want) <==>
      want.known && s.mediaWidth != 0 &&
      (s.mediaWidth != want.widthMM
       || (!(want.kind in {0x0A, 0x4A} && s.mediaType in {0x0A, 0x4A})
           && !(want.kind in {0x0B, 0x4B} && s.mediaType in {0x0B, 0x4B})))
  {
  }

  /** Busy is bit 4 of the first error byte; a red/black roll has the high bit of the text colour. */
  lemma {:induction false} FlagsByBits(s: Status)
    ensures Busy(s) <==> s.err1 / 16 % 2 == 1
    ensures TwoColorRoll(s) <==> s.textColor >= 128
    ensures IsReply(s) <==> s.kind in {0x00, 0x02}
  {
    hide HasBit;
    ByteBits(s.err1);
    ByteBits(s.textColor);
  }

  /** The answers a status request may get: a printer in an error state says "error occurred". */
  predicate IsReply(s: Status) {
    s.kind == TYPE_REPLY || s.kind == TYPE_ERROR_OCCURRED
  }
}
