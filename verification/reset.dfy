/**
 The reset the backend sends after a failure: 400 bytes of 0x00 and ESC @. When it
 brings a printer that was stopped anywhere in a job back to reading commands.
 */
module Reset {
  import opened Bytes
  import opened Sequences
  import opened CommandStream
  import opened TwoColor

  const INVALIDATE_BYTES := 400

  function CmdReset(): (s: seq<byte>) {
    Zeros(INVALIDATE_BYTES) + [ESC, 0x40]
  }

  /** After p and the reset every byte has been read as commands, ESC @ the last of them. */
  predicate Resyncs(p: seq<byte>) {
    var l := Lex(p + CmdReset());
    l.rest == [] && l.cmds != [] && l.cmds[|l.cmds| - 1] == Initialize
  }

  /** n bytes of 0x00 at a command boundary are n invalidates. */
  lemma {:induction false} LexZeros(n: nat, tail: seq<byte>)
    ensures Lex(Zeros(n) + tail) == Lexed(seq(n, _ => Invalidate) + Lex(tail).cmds, Lex(tail).rest)
  {
    hide Lex;
    if n == 0 {
      assert Zeros(0) + tail == tail;
      EmptyEnds(Lex(tail).cmds);
      assert seq(0, _ => Invalidate) == [];
    } else {
      var more := Zeros(n - 1) + tail;
      assert Zeros(n) + tail == Render(Invalidate) + more;
      LexStep(Invalidate, more);
      LexZeros(n - 1, tail);
      Regroup([Invalidate], seq(n - 1, _ => Invalidate), Lex(tail).cmds);
      assert [Invalidate] + seq(n - 1, _ => Invalidate) == seq(n, _ => Invalidate);
    }
  }

  /** What is left of the reset once the first used bytes of it have completed a command. */
  function ResetCommands(used: nat): (cmds: seq<Command>)
    requires used <= INVALIDATE_BYTES
    ensures |cmds| >= 1 && cmds[|cmds| - 1] == Initialize
  {
    seq(INVALIDATE_BYTES - used, _ => Invalidate) + [Initialize]
  }

  lemma LexResetTail(used: nat)
    requires used <= INVALIDATE_BYTES
    ensures Lex(CmdReset()[used..]) == Lexed(ResetCommands(used), [])
  {
    assert CmdReset()[used..] == Zeros(INVALIDATE_BYTES - used) + Render(Initialize);
    LexZeros(INVALIDATE_BYTES - used, Render(Initialize));
    RenderSingle(Initialize);
    LexRendered([Initialize]);
  }

  /** The printer is between commands, or inside one that at most 400 zeros complete. */
  predicate Recoverable(rest: seq<byte>) {
    rest == [] || (First(rest).Cut? && !InsideOpcode(rest) && Missing(rest) <= INVALIDATE_BYTES)
  }

  /** What is left over and the reset make these commands together. */
  function Refill(rest: seq<byte>): (cmds: seq<Command>)
    requires Recoverable(rest)
    ensures |cmds| >= 1 && cmds[|cmds| - 1] == Initialize
  {
    if rest == [] then ResetCommands(0) else [Filled(rest)] + ResetCommands(Missing(rest))
  }

  lemma LexRefill(rest: seq<byte>)
    requires Recoverable(rest)
    ensures Lex(rest + CmdReset()) == Lexed(Refill(rest), [])
  {
    if rest == [] {
      assert rest + CmdReset() == CmdReset()[0..];
      LexResetTail(0);
    } else {
      var m := Missing(rest);
      var tail := CmdReset()[m..];
      assert CmdReset() == Zeros(m) + tail;
      assert rest + CmdReset() == Render(Filled(rest)) + tail;
      LexStep(Filled(rest), tail);
      LexResetTail(m);
    }
  }

  /** The command neither prints what the printer holds nor drops it. */
  predicate Holds(c: Command) {
    !c.Print? && !c.Initialize?
  }

  predicate AllHold(cmds: seq<Command>) {
    forall i | 0 <= i < |cmds| :: Holds(cmds[i])
  }

  /**
   When the left-over is not recoverable, the reset is lost: no ESC @ is read, and no more of
   it than a line and a byte.
   */
  lemma LostInReset(rest: seq<byte>, z: seq<byte>)
    requires Unreadable(rest) && !Recoverable(rest) && z <= CmdReset()
    ensures AllHold(Lex(rest + z).cmds)
  {
    if InsideOpcode(rest) {
      LostInOpcode(rest, z);
    } else if First(rest).Cut? {
      LostInPackedLine(rest, z);
    } else {
      StuckStays(rest, z);
    }
  }

  /** Behind an unknown opcode nothing is read. */
  lemma StuckStays(rest: seq<byte>, more: seq<byte>)
    requires rest != [] && !First(rest).Found? && !First(rest).Cut?
    ensures Lex(rest + more) == Lexed([], rest + more)
  {
    var all := rest + more;
    assert all[0] == rest[0] == ESC && all[1] == rest[1];
    assert |rest| > 2 ==> all[2] == rest[2];
  }

  /** Inside an opcode the reset is lost from its first byte on. */
  lemma LostInOpcode(rest: seq<byte>, z: seq<byte>)
    requires InsideOpcode(rest) && z <= CmdReset()
    ensures Lex(rest + z).cmds == [] && Lex(rest + z).rest != []
  {
    ResetStartsWithZero(z);
    hide CmdReset, Render;
    var all := rest + z;
    assert all[..|rest|] == rest;
    assert z != [] ==> all[|rest|] == 0;
    EscapeAndZero(all, |rest|);
    hide First, InsideOpcode;
  }

  lemma ResetStartsWithZero(z: seq<byte>)
    requires z <= CmdReset()
    ensures z != [] ==> z[0] == 0
  {
    assert CmdReset()[0] == 0;
  }

  /** An opcode that is not complete, or goes on with 0x00, is no command. */
  lemma EscapeAndZero(all: seq<byte>, k: nat)
    requires k <= |all| && InsideOpcode(all[..k]) && (k < |all| ==> all[k] == 0)
    ensures !First(all).Found?
  {
    assert all[0] == all[..k][0] && (k > 1 ==> all[1] == all[..k][1]);
    hide Render, LineSize, PackedSize, ArgCount;
  }

  lemma ResetEnds()
    ensures |CmdReset()| == 402 && CmdReset()[401] == 0x40
    ensures Lex([0x40]) == Lexed([Other(0x40)], []) && Lex([]) == Lexed([], [])
  {
    RenderSingle(Other(0x40));
    LexRendered([Other(0x40)]);
  }

  lemma PackedFirst(all: seq<byte>, size: nat)
    requires |all| >= 3 && all[0] == 0x47 && size == PackedSize(all[1], all[2])
    ensures if |all| < size then First(all).Cut?
            else First(all).Found? && First(all).c.CompressedLine? && |Render(First(all).c)| == size
  {
  }

  /** A compressed line is cut, or it is read and nothing but what lies beyond it is left. */
  lemma PackedLineRead(all: seq<byte>, size: nat)
    requires |all| >= 3 && all[0] == 0x47 && size == PackedSize(all[1], all[2])
    ensures if |all| < size then Lex(all).cmds == []
            else var cmds := Lex(all).cmds;
              cmds != [] && cmds[0].CompressedLine? && cmds[1..] == Lex(all[size..]).cmds
  {
    PackedFirst(all, size);
    hide First, Render;
    if |all| >= size {
      LexFound(all);
      hide Lex;
      SplitBack([First(all).c], Lex(all[size..]).cmds);
    }
  }

  /** A compressed line that still needs more than 400 bytes swallows ESC, or all of the reset. */
  lemma LostInPackedLine(rest: seq<byte>, z: seq<byte>)
    requires rest != [] && First(rest).Cut? && !InsideOpcode(rest) && Missing(rest) > INVALIDATE_BYTES
    requires z <= CmdReset()
    ensures AllHold(Lex(rest + z).cmds)
  {
    assert rest[0] == 0x47 && |rest| >= 3;
    var all, size := rest + z, PackedSize(rest[1], rest[2]);
    assert Missing(rest) == size - |rest|;
    hide First, Missing, InsideOpcode, FirstEscape, CmdReset, Lex, Render, RenderAll;
    PackedLineRead(all, size);
    ResetEnds();
    if |all| >= size {
      BeyondLine(rest, z, size);
    }
  }

  lemma BeyondLine(rest: seq<byte>, z: seq<byte>, size: nat)
    requires z <= CmdReset() && |rest| + INVALIDATE_BYTES < size <= |rest + z|
    ensures (rest + z)[size..] == [] || (rest + z)[size..] == [0x40]
  {
    ResetEnds();
    hide CmdReset, Lex;
    var tail := (rest + z)[size..];
    if tail != [] {
      assert tail[0] == z[401];
    }
  }

  lemma LostForGood(rest: seq<byte>)
    requires Unreadable(rest) && !Recoverable(rest)
    ensures var l := Lex(rest + CmdReset());
      l.rest != [] || (l.cmds != [] && l.cmds[|l.cmds| - 1] != Initialize)
  {
    ResetEnds();
    LostInReset(rest, CmdReset());
    LexSound(rest + CmdReset());
    hide Lex, CmdReset, Recoverable, Unreadable, First, Render;
  }

  /**
   Wherever a printer stands in whatever it was sent, the reset brings it back to reading
   commands if and only if it is not inside an ESC or ESC i opcode (or past an unknown
   one), nor so early in a compressed line that this lacks more than 400 bytes.
   */
  lemma {:induction false} ResyncsIff(p: seq<byte>)
    ensures Resyncs(p) <==> Recoverable(Lex(p).rest)
  {
    LexSound(p);
    LexThrough(p, CmdReset());
    var rest := Lex(p).rest;
    if Recoverable(rest) {
      LexRefill(rest);
    } else {
      LostForGood(rest);
    }
    hide Lex, CmdReset, Recoverable, Refill, RenderAll, Unreadable;
  }

  /** It does fail: after a lone ESC, and after the three bytes that announce a line of 65535. */
  lemma {:induction false} ResetFails()
    ensures !Resyncs([ESC]) && !Resyncs([0x47, 0xFF, 0xFF])
  {
    hide Resyncs;
    ResyncsIff([ESC]);
    ResyncsIff([0x47, 0xFF, 0xFF]);
  }

  /** Without compressed lines only a stop inside an opcode defeats the reset. */
  lemma {:induction false} UncompressedResyncs(cmds: seq<Command>, p: seq<byte>)
    requires p <= RenderAll(cmds)
    requires forall i | 0 <= i < |cmds| :: !cmds[i].CompressedLine?
    ensures Resyncs(p) <==> !InsideOpcode(Lex(p).rest)
  {
    LexPrefix(cmds, p);
    ResyncsIff(p);
    var rest := Lex(p).rest;
    if rest != [] {
      ShortOfLittle(cmds[|Lex(p).cmds|], rest);
    }
  }

  lemma ShortOfLittle(c: Command, rest: seq<byte>)
    requires rest != [] && rest < Render(c) && !c.CompressedLine? && First(rest).Cut?
    ensures Missing(rest) <= INVALIDATE_BYTES
  {
    assert rest[0] == Render(c)[0];
  }

  /** Once resynchronised, whatever is sent next is read as the commands it was written as. */
  lemma {:induction false} NextJobIsReadWhole(p: seq<byte>, next: seq<byte>)
    requires Resyncs(p)
    ensures Lex(p + CmdReset() + next) == Lexed(Lex(p + CmdReset()).cmds + Lex(next).cmds, Lex(next).rest)
  {
    LexAppend(p + CmdReset(), next);
  }

  lemma {:induction false} DrawIdle(cmds: seq<Command>, more: seq<Command>)
    requires forall i | 0 <= i < |more| :: more[i] == Invalidate
    ensures Draw(cmds + more) == Draw(cmds)
    decreases |more|
  {
    if more == [] {
      assert cmds + more == cmds;
    } else {
      var n := |more| - 1;
      assert (cmds + more)[..|cmds + more| - 1] == cmds + more[..n];
      DrawIdle(cmds, more[..n]);
    }
  }

  /** After the reset the printer holds no part of a label, and has printed none on account of it. */
  lemma {:induction false} ResetDropsTheLabel(p: seq<byte>)
    requires Resyncs(p)
    ensures Draw(Lex(p + CmdReset()).cmds) == Canvas(Draw(Lex(p).cmds).pages, EMPTY_PAGE)
  {
    ResyncsIff(p);
    LexThrough(p, CmdReset());
    LexRefill(Lex(p).rest);
    DrawRefill(Lex(p).cmds, Lex(p).rest);
  }

  lemma DrawRefill(done: seq<Command>, rest: seq<byte>)
    requires Recoverable(rest)
    ensures Draw(done + Refill(rest)) == Canvas(Draw(done).pages, EMPTY_PAGE)
  {
    hide First, Render, Missing, InsideOpcode, Filled, ResetCommands;
    if rest == [] {
      DrawReset(done, 0);
    } else {
      var c := Filled(rest);
      SplitBack(done, [c]);
      Regroup(done, [c], ResetCommands(Missing(rest)));
      DrawReset(done + [c], Missing(rest));
    }
  }

  lemma DrawLast(front: seq<Command>, c: Command)
    ensures Draw(front + [c]) == Paint(Draw(front), c)
  {
    hide Paint;
    SplitBack(front, [c]);
  }

  lemma DrawReset(front: seq<Command>, used: nat)
    requires used <= INVALIDATE_BYTES
    ensures Draw(front + ResetCommands(used)) == Canvas(Draw(front).pages, EMPTY_PAGE)
  {
    var idle := seq(INVALIDATE_BYTES - used, _ => Invalidate);
    DrawIdle(front, idle);
    Regroup(front, idle, [Initialize]);
    DrawLast(front + idle, Initialize);
    hide Draw;
  }

  // ----- A reset of which only the front arrives -----

  lemma {:induction false} HeldOn(done: seq<Command>, more: seq<Command>)
    requires AllHold(more)
    ensures var a, b := Draw(done), Draw(done + more);
      b.pages == a.pages && a.open.black <= b.open.black && a.open.red <= b.open.red
    decreases |more|
  {
    if more == [] {
      assert done + more == done;
    } else {
      var n := |more| - 1;
      assert (done + more)[..|done + more| - 1] == done + more[..n];
      HeldOn(done, more[..n]);
    }
  }

  /** Of the commands that the whole reset makes with what was left over, all but the last hold. */
  lemma RefillHolds(rest: seq<byte>, i: nat)
    requires Recoverable(rest) && i < |Refill(rest)| - 1
    ensures Holds(Refill(rest)[i])
  {
    hide First, Render, Missing, InsideOpcode;
  }

  lemma FrontInFront(a: seq<byte>, z: seq<byte>, b: seq<byte>)
    requires z < b
    ensures a + z <= a + b && |a + z| < |a + b|
  {
  }

  /** The front of the reset makes fewer commands than the whole. */
  lemma FrontOfRefill(rest: seq<byte>, z: seq<byte>)
    requires Recoverable(rest) && z < CmdReset()
    ensures var x := Lex(rest + z).cmds; |x| < |Refill(rest)| && x <= Refill(rest)
  {
    hide Recoverable, CmdReset, Lex, Refill, RenderAll, First, Unreadable;
    var all, x := Refill(rest), Lex(rest + z).cmds;
    LexRefill(rest);
    LexSound(rest + CmdReset());
    LexSound(rest + z);
    EmptyEnds(RenderAll(all));
    assert RenderAll(all) == rest + CmdReset();
    FrontInFront(rest, z, CmdReset());
    LexPrefix(all, rest + z);
    assert |RenderAll(x)| <= |rest + z|;
    assert x != all;
  }

  /**
   What becomes of the label the printer holds when z, the reset or the front of it, arrives
   after any p. No label is printed. If all of it arrives where that is recoverable, the label
   is dropped and the stream read to the end; if not, every line held before is still held.
   */
  lemma {:induction false} PartOfReset(p: seq<byte>, z: seq<byte>)
    requires z <= CmdReset()
    ensures var a, b := Draw(Lex(p).cmds), Draw(Lex(p + z).cmds);
      && b.pages == a.pages
      && if z == CmdReset() && Recoverable(Lex(p).rest) then b.open == EMPTY_PAGE && Lex(p + z).rest == []
         else a.open.black <= b.open.black && a.open.red <= b.open.red
    ensures InsideOpcode(Lex(p).rest) ==> Lex(p + z).rest != []
  {
    var rest := Lex(p).rest;
    LexThrough(p, z);
    LexSound(p);
    if InsideOpcode(rest) {
      LostInOpcode(rest, z);
    }
    if z == CmdReset() && Recoverable(rest) {
      ResyncsIff(p);
      ResetDropsTheLabel(p);
    } else {
      PartHolds(rest, z);
      hide Draw, Lex, CmdReset, AllHold;
      HeldOn(Lex(p).cmds, Lex(rest + z).cmds);
    }
  }

  lemma PartHolds(rest: seq<byte>, z: seq<byte>)
    requires Unreadable(rest) && z <= CmdReset() && !(z == CmdReset() && Recoverable(rest))
    ensures AllHold(Lex(rest + z).cmds)
  {
    if Recoverable(rest) {
      var x := Lex(rest + z).cmds;
      FrontOfRefill(rest, z);
      hide Lex, Refill, CmdReset, Holds;
      forall i | 0 <= i < |x| ensures Holds(x[i]) {
        RefillHolds(rest, i);
      }
    } else {
      LostInReset(rest, z);
    }
  }

  /** A label that is held is dropped by the whole reset where that is recoverable, and by nothing less. */
  lemma {:induction false} HeldIsDroppedIff(p: seq<byte>, z: seq<byte>)
    requires z <= CmdReset() && Draw(Lex(p).cmds).open != EMPTY_PAGE
    ensures Draw(Lex(p + z).cmds).open == EMPTY_PAGE <==> z == CmdReset() && Recoverable(Lex(p).rest)
  {
    hide Draw, Lex, CmdReset, Recoverable;
    PartOfReset(p, z);
  }

  // ----- What is asked after the reset -----

  /** Nothing but bytes that occur in a status request. */
  predicate OnlyAsks(u: seq<byte>) {
    forall i | 0 <= i < |u| :: u[i] in {ESC, 0x69, 0x53}
  }

  /** The command leaves all that is drawn as it is. */
  predicate Idles(c: Command) {
    c.Setting? || c.Other?
  }

  lemma {:induction false} AsksAreIdle(u: seq<byte>)
    requires OnlyAsks(u)
    ensures forall i | 0 <= i < |Lex(u).cmds| :: Idles(Lex(u).cmds[i])
    decreases |u|
  {
    if u != [] && First(u).Found? {
      LexFound(u);
      AsksAreIdle(u[|Render(First(u).c)|..]);
    }
  }

  /** Whatever an unreadable rest becomes with them, it is neither a print nor a reset. */
  lemma AsksHold(rest: seq<byte>, u: seq<byte>)
    requires Unreadable(rest) && OnlyAsks(u)
    ensures AllHold(Lex(rest + u).cmds)
    ensures rest == [] ==> forall i | 0 <= i < |Lex(rest + u).cmds| :: Idles(Lex(rest + u).cmds[i])
  {
    var all := rest + u;
    if rest == [] {
      assert all == u;
      AsksAreIdle(u);
    } else if First(all).Found? {
      var c := First(all).c;
      LexFound(all);
      FoundBeyond(rest, u);
      assert all[|Render(c)|..] == u[|Render(c)| - |rest|..];
      AsksAreIdle(u[|Render(c)| - |rest|..]);
    }
  }

  lemma FoundBeyond(rest: seq<byte>, u: seq<byte>)
    requires rest != [] && !First(rest).Found? && OnlyAsks(u) && First(rest + u).Found?
    ensures var c := First(rest + u).c; |Render(c)| > |rest| && Holds(c)
  {
    var c := First(rest + u).c;
    FirstIsPrefix(rest + u);
    if |Render(c)| <= |rest| {
      assert (rest + u)[..|Render(c)|] == rest[..|Render(c)|];
      TakeDrop(rest, |Render(c)|);
      FirstOfRender(c, rest[|Render(c)|..]);
    }
    assert |rest| == 1 && u != [] ==> (rest + u)[1] == u[0];
  }

  lemma {:induction false} DrawIdles(done: seq<Command>, more: seq<Command>)
    requires forall i | 0 <= i < |more| :: Idles(more[i])
    ensures Draw(done + more) == Draw(done)
    decreases |more|
  {
    if more == [] {
      assert done + more == done;
    } else {
      var n := |more| - 1;
      assert (done + more)[..|done + more| - 1] == done + more[..n];
      DrawIdles(done, more[..n]);
    }
  }

  /** Requests, or parts of them, print nothing and drop nothing after any p, and leave no mark between commands. */
  lemma {:induction false} AsksChangeNothing(p: seq<byte>, u: seq<byte>)
    requires OnlyAsks(u)
    ensures var a, b := Draw(Lex(p).cmds), Draw(Lex(p + u).cmds);
      && b.pages == a.pages && a.open.black <= b.open.black && a.open.red <= b.open.red
      && (Lex(p).rest == [] ==> b == a)
  {
    LexSound(p);
    LexThrough(p, u);
    var rest := Lex(p).rest;
    AsksHold(rest, u);
    hide Draw, Lex, OnlyAsks, AllHold, Idles;
    HeldOn(Lex(p).cmds, Lex(rest + u).cmds);
    if rest == [] {
      DrawIdles(Lex(p).cmds, Lex(rest + u).cmds);
    }
  }
}
