/**
 The QL raster command stream: an abstract syntax, the bytes of each command, and a
 lexer that splits any byte stream into commands from the left. Both the job parser
 and the two-colour rewrite walk a stream with these command sizes.
 */
module CommandStream {
  import opened Bytes
  import opened Sequences

  const ESC: byte := 0x1B

  datatype RawCommand =
    | Invalidate                                 // 0x00
    | Print(feed: bool)                          // 0x0C, or 0x1A with feed (last page)
    | CompressionMode(mode: byte)                // 'M' mode
    | ZeroLine                                   // 'Z'
    | RasterLine(flag: byte, row: seq<byte>)     // 'g' flag n, n bytes
    | ColorLine(color: byte, row: seq<byte>)     // 'w' colour n, n bytes
    | CompressedLine(packed: seq<byte>)          // 'G' n1 n2, n1 + 256 * n2 bytes
    | Initialize                                 // ESC '@'
    | Setting(op: byte, args: seq<byte>)         // ESC 'i' op, a fixed number of bytes
    | Other(b: byte)                             // a byte that starts no command
  {
    predicate Valid() {
      match this
      case RasterLine(_, row) => |row| < 256
      case ColorLine(_, row) => |row| < 256
      case CompressedLine(packed) => |packed| < 65536
      case Setting(op, args) => IsSetting(op) && |args| == ArgCount(op)
      case Other(b) => !StartsCommand(b)
      case _ => true
    }
  }

  type Command = c: RawCommand | c.Valid() witness Invalidate

  predicate IsSetting(op: byte) {
    op in {0x53, 0x61, 0x4D, 0x41, 0x4B, 0x64, 0x7A}
  }

  /** How many bytes follow ESC i op: S none; a, M, A, K one; d two; z ten. */
  function ArgCount(op: byte): nat
    requires IsSetting(op)
  {
    if op == 0x53 then 0 else if op == 0x64 then 2 else if op == 0x7A then 10 else 1
  }

  predicate StartsCommand(b: byte) {
    b in {0x00, 0x0C, 0x1A, 0x4D, 0x5A, 0x67, 0x77, 0x47, 0x1B}
  }

  function Render(c: Command): (s: seq<byte>)
    ensures |s| >= 1
  {
    match c
    case Invalidate => [0x00]
    case Print(feed) => [if feed then 0x1A else 0x0C]
    case CompressionMode(mode) => [0x4D, mode]
    case ZeroLine => [0x5A]
    case RasterLine(flag, row) => [0x67, flag, |row|] + row
    case ColorLine(color, row) => [0x77, color, |row|] + row
    case CompressedLine(packed) => [0x47, |packed| % 256, |packed| / 256] + packed
    case Initialize => [ESC, 0x40]
    case Setting(op, args) => [ESC, 0x69, op] + args
    case Other(b) => [b]
  }

  function RenderAll(cmds: seq<Command>): (s: seq<byte>) {
    if cmds == [] then [] else Render(cmds[0]) + RenderAll(cmds[1..])
  }

  /** What stands at the front of a stream. */
  datatype Head =
    | Found(c: Command)
    | Cut               // the stream ends inside a command
    | UnknownEscape     // ESC followed by neither '@' nor 'i'
    | UnknownSetting    // ESC i followed by no known letter

  /** How many bytes a line command with this length byte, or these two, takes. */
  function LineSize(n: nat): nat {
    3 + n
  }

  function PackedSize(n1: nat, n2: nat): nat {
    3 + n1 + 256 * n2
  }

  function First(data: seq<byte>): (h: Head)
    requires data != []
  {
    match data[0]
    case 0x00 => Found(Invalidate)
    case 0x0C => Found(Print(false))
    case 0x1A => Found(Print(true))
    case 0x4D => if |data| < 2 then Cut else Found(CompressionMode(data[1]))
    case 0x5A => Found(ZeroLine)
    case 0x67 => 
      if |data| < 3 || |data| < LineSize(data[2]) then Cut
      else Found(RasterLine(data[1], data[3..LineSize(data[2])]))
    case 0x77 => 
      if |data| < 3 || |data| < LineSize(data[2]) then Cut
      else Found(ColorLine(data[1], data[3..LineSize(data[2])]))
    case 0x47 =>
      if |data| < 3 || |data| < PackedSize(data[1], data[2]) then Cut
      else Found(CompressedLine(data[3..PackedSize(data[1], data[2])]))
    case 0x1B => FirstEscape(data)
    case b => Found(Other(b))
  }

  function FirstEscape(data: seq<byte>): (h: Head)
    requires data != [] && data[0] == ESC
  {
    if |data| < 2 then Cut
    else if data[1] == 0x40 then Found(Initialize)
    else if data[1] != 0x69 then UnknownEscape
    else if |data| < 3 then Cut
    else if !IsSetting(data[2]) then UnknownSetting
    else if |data| < 3 + ArgCount(data[2]) then Cut
    else Found(Setting(data[2], data[3..3 + ArgCount(data[2])]))
  }

  /** The front of the stream is read exactly when the stream starts with that command. */
  lemma FirstIsPrefix(data: seq<byte>)
    requires data != [] && First(data).Found?
    ensures Render(First(data).c) <= data
  {
    var c := First(data).c;
    assert data[..|Render(c)|] == Render(c);
  }

  lemma FirstOfRender(c: Command, rest: seq<byte>)
    ensures First(Render(c) + rest) == Found(c)
  {
    var data := Render(c) + rest;
    match c
    case RasterLine(_, row) => assert data[3..3 + |row|] == row;
    case ColorLine(_, row) => assert data[3..3 + |row|] == row;
    case CompressedLine(packed) => assert data[3..3 + |packed|] == packed;
    case Setting(_, args) => assert data[3..3 + |args|] == args;
    case _ =>
  }

  /** A stream split into the commands read off its front and what could not be read. */
  datatype Lexed = Lexed(cmds: seq<Command>, rest: seq<byte>)

  function Lex(data: seq<byte>): (l: Lexed)
    decreases |data|
  {
    if data == [] then Lexed([], [])
    else
      match First(data)
      case Found(c) =>
        FirstIsPrefix(data);
        var tail := Lex(data[|Render(c)|..]);
        Lexed([c] + tail.cmds, tail.rest)
      case _ => Lexed([], data)
  }

  lemma LexFound(data: seq<byte>)
    requires data != [] && First(data).Found?
    ensures |Render(First(data).c)| <= |data|
    ensures var tail := Lex(data[|Render(First(data).c)|..]);
      Lex(data) == Lexed([First(data).c] + tail.cmds, tail.rest)
  {
    FirstIsPrefix(data);
  }

  /** No command can be read off the front of this. */
  predicate Unreadable(rest: seq<byte>) {
    rest == [] || !First(rest).Found?
  }

  lemma RenderCons(c: Command, cmds: seq<Command>)
    ensures RenderAll([c] + cmds) == Render(c) + RenderAll(cmds)
  {
    assert ([c] + cmds)[1..] == cmds;
  }

  /** Nothing is lost: the commands and the rest are the stream, and the rest is stuck. */
  lemma {:induction false} LexSound(data: seq<byte>)
    ensures RenderAll(Lex(data).cmds) + Lex(data).rest == data
    ensures Unreadable(Lex(data).rest)
    decreases |data|
  {
    if data != [] && First(data).Found? {
      LexFound(data);
      var c := First(data).c;
      FirstIsPrefix(data);
      var tail := data[|Render(c)|..];
      LexSound(tail);
      RenderFront(c, Lex(tail), data, tail);
    }
  }

  lemma RenderFront(c: Command, l: Lexed, data: seq<byte>, tail: seq<byte>)
    requires Render(c) <= data && tail == data[|Render(c)|..] && RenderAll(l.cmds) + l.rest == tail
    ensures RenderAll([c] + l.cmds) + l.rest == data
  {
    hide Render, RenderAll;
    RenderCons(c, l.cmds);
    Regroup(Render(c), RenderAll(l.cmds), l.rest);
    TakeDrop(data, |Render(c)|);
  }

  lemma LexStep(c: Command, rest: seq<byte>)
    ensures Lex(Render(c) + rest) == Lexed([c] + Lex(rest).cmds, Lex(rest).rest)
  {
    FirstOfRender(c, rest);
    assert (Render(c) + rest)[|Render(c)|..] == rest;
  }

  /** The code is uniquely decodable: commands put on the front of a stream are read back. */
  lemma {:induction false} LexComplete(cmds: seq<Command>, tail: seq<byte>)
    ensures Lex(RenderAll(cmds) + tail) == Lexed(cmds + Lex(tail).cmds, Lex(tail).rest)
    decreases |cmds|
  {
    if cmds == [] {
      assert RenderAll(cmds) + tail == tail;
    } else {
      var c, more := cmds[0], RenderAll(cmds[1..]) + tail;
      assert RenderAll(cmds) + tail == Render(c) + more;
      LexComplete(cmds[1..], tail);
      LexAfter(c, more, cmds[1..] + Lex(tail).cmds, Lex(tail).rest);
      JoinFront(cmds, Lex(tail).cmds);
    }
  }

  lemma LexAfter(c: Command, more: seq<byte>, cmds: seq<Command>, rest: seq<byte>)
    requires Lex(more) == Lexed(cmds, rest)
    ensures Lex(Render(c) + more) == Lexed([c] + cmds, rest)
  {
    LexStep(c, more);
  }

  lemma JoinFront<T>(xs: seq<T>, ys: seq<T>)
    requires xs != []
    ensures [xs[0]] + (xs[1..] + ys) == xs + ys
  {
  }

  /** A fully read stream in front of another changes nothing about how that one is read. */
  lemma {:induction false} LexAppend(a: seq<byte>, b: seq<byte>)
    requires Lex(a).rest == []
    ensures Lex(a + b) == Lexed(Lex(a).cmds + Lex(b).cmds, Lex(b).rest)
  {
    LexSound(a);
    assert RenderAll(Lex(a).cmds) == a;
    LexComplete(Lex(a).cmds, b);
  }

  /** Whatever follows a stream is read together with what the stream left over. */
  lemma {:induction false} LexThrough(p: seq<byte>, t: seq<byte>)
    ensures Lex(p + t) == Lexed(Lex(p).cmds + Lex(Lex(p).rest + t).cmds, Lex(Lex(p).rest + t).rest)
  {
    LexSound(p);
    LexJoined(Lex(p).cmds, Lex(p).rest, t);
  }

  lemma LexJoined(cmds: seq<Command>, rest: seq<byte>, t: seq<byte>)
    ensures Lex(RenderAll(cmds) + rest + t) == Lexed(cmds + Lex(rest + t).cmds, Lex(rest + t).rest)
  {
    LexComplete(cmds, rest + t);
    assert RenderAll(cmds) + rest + t == RenderAll(cmds) + (rest + t);
  }

  lemma {:induction false} RenderAppend(xs: seq<Command>, ys: seq<Command>)
    ensures RenderAll(xs + ys) == RenderAll(xs) + RenderAll(ys)
    decreases |xs|
  {
    if xs == [] {
      assert xs + ys == ys;
    } else {
      assert (xs + ys)[1..] == xs[1..] + ys;
      RenderAppend(xs[1..], ys);
    }
  }

  /** What a cut front still needs, were it continued with 0x00 bytes. */
  function Missing(data: seq<byte>): (n: nat)
    requires data != [] && First(data).Cut?
    ensures n >= 1
  {
    if data == [ESC] || data == [ESC, 0x69] then 1
    else if data[0] == 0x4D then 1
    else if data[0] == ESC then 3 + ArgCount(data[2]) - |data|
    else if |data| < 3 then 3 - |data| + (if data[0] == 0x47 && |data| == 2 then data[1] else 0)
    else if data[0] == 0x47 then PackedSize(data[1], data[2]) - |data|
    else LineSize(data[2]) - |data|
  }

  /** One byte at most of an ESC or ESC i opcode is there. */
  predicate InsideOpcode(data: seq<byte>) {
    data == [ESC] || data == [ESC, 0x69]
  }

  /** The command a cut front becomes once 0x00 bytes have filled it up. */
  function Filled(data: seq<byte>): (c: Command)
    requires data != [] && First(data).Cut? && !InsideOpcode(data)
    ensures Render(c) == data + Zeros(Missing(data))
    ensures !c.Print? && !c.Other? && !c.Initialize?
    ensures c.CompressedLine? <==> data[0] == 0x47
  {
    var whole := data + Zeros(Missing(data));
    assert First(whole).Found?;
    FirstIsPrefix(whole);
    var c := First(whole).c;
    assert |Render(c)| == |whole|;
    assert whole[..|whole|] == whole;
    c
  }

  /** "The stream ends inside a command" says just that: some command goes on from here. */
  lemma {:induction false} CutMeansInsideCommand(data: seq<byte>)
    requires data != []
    ensures First(data).Cut? <==> exists c: Command :: data < Render(c)
  {
    if First(data).Cut? {
      if data == [ESC] {
        assert data < Render(Initialize);
      } else if data == [ESC, 0x69] {
        assert data < Render(Setting(0x53, []));
      } else {
        assert data < Render(Filled(data));
      }
    }
    forall c: Command | data < Render(c)
      ensures First(data).Cut?
    {
      StrictPrefixIsCut(c, data);
    }
  }

  lemma StrictPrefixIsCut(c: Command, p: seq<byte>)
    requires p != [] && p < Render(c)
    ensures First(p).Cut?
  {
    var s := Render(c);
    assert p == s[..|p|];
    assert p[0] == s[0];
    if |p| > 1 { assert p[1] == s[1]; }
    if |p| > 2 { assert p[2] == s[2]; }
  }

  /** A prefix of a readable stream reads as a prefix of its commands, then ends or is cut. */
  lemma {:induction false} LexPrefix(cmds: seq<Command>, p: seq<byte>)
    requires p <= RenderAll(cmds)
    ensures Lex(p).cmds <= cmds
    ensures Lex(p).rest == [] ||
      (|Lex(p).cmds| < |cmds| && Lex(p).rest < Render(cmds[|Lex(p).cmds|]) && First(Lex(p).rest).Cut?)
    decreases |cmds|
  {
    if p != [] {
      var s := Render(cmds[0]);
      if |p| < |s| {
        assert p == s[..|p|];
        StrictPrefixIsCut(cmds[0], p);
      } else {
        var q := p[|s|..];
        assert RenderAll(cmds) == s + RenderAll(cmds[1..]);
        PrefixSplit(p, s, RenderAll(cmds[1..]));
        LexStep(cmds[0], q);
        LexPrefix(cmds[1..], q);
      }
    }
  }

  lemma PrefixSplit(p: seq<byte>, s: seq<byte>, t: seq<byte>)
    requires p <= s + t && |p| >= |s|
    ensures p == s + p[|s|..] && p[|s|..] <= t
  {
    assert p == (s + t)[..|p|];
    assert p[|s|..] == t[..|p| - |s|];
  }

  // ----- Walking a stream from the left, as ParseJob and ToTwoColor do -----

  predicate All(cmds: seq<Command>, good: Command -> bool) {
    forall i | 0 <= i < |cmds| :: good(cmds[i])
  }

  /** How many commands stand before the first one that is not good. */
  function CountWhile(cmds: seq<Command>, good: Command -> bool): (k: nat)
    ensures k <= |cmds| && All(cmds[..k], good)
    ensures k < |cmds| ==> !good(cmds[k])
  {
    if cmds == [] || !good(cmds[0]) then 0 else
      var k := CountWhile(cmds[1..], good);
      assert cmds[..k + 1] == [cmds[0]] + cmds[1..][..k];
      k + 1
  }

  lemma {:induction false} CountWhileAppend(done: seq<Command>, more: seq<Command>, good: Command -> bool)
    requires All(done, good)
    ensures CountWhile(done + more, good) == |done| + CountWhile(more, good)
    decreases |done|
  {
    if done == [] {
      assert done + more == more;
    } else {
      assert (done + more)[1..] == done[1..] + more;
      CountWhileAppend(done[1..], more, good);
    }
  }

  /** The offset at which a walk that takes only good commands stops: |data| if it takes all. */
  function StopAt(data: seq<byte>, good: Command -> bool): (at: nat)
    ensures at <= |data|
    ensures at < |data| && First(data[at..]).Found? ==> !good(First(data[at..]).c)
  {
    var cmds := Lex(data).cmds;
    var k := CountWhile(cmds, good);
    StopHere(data, k);
    |RenderAll(cmds[..k])|
  }

  lemma StopHere(data: seq<byte>, k: nat)
    requires k <= |Lex(data).cmds|
    ensures var at := |RenderAll(Lex(data).cmds[..k])|;
      && at <= |data|
      && data[..at] == RenderAll(Lex(data).cmds[..k])
      && (k == |Lex(data).cmds| ==> data[at..] == Lex(data).rest && Unreadable(data[at..]))
      && (k < |Lex(data).cmds| ==> at < |data| && First(data[at..]) == Found(Lex(data).cmds[k]))
  {
    var l := Lex(data);
    LexSound(data);
    RenderSplit(l.cmds, l.rest, k);
    var back := l.cmds[k..];
    if k < |l.cmds| {
      HeadOfRendered(back, l.rest);
    } else {
      assert RenderAll(back) + l.rest == l.rest;
    }
  }

  lemma RenderSplit(cmds: seq<Command>, rest: seq<byte>, k: nat)
    requires k <= |cmds|
    ensures var data, at := RenderAll(cmds) + rest, |RenderAll(cmds[..k])|;
      at <= |data| && data[..at] == RenderAll(cmds[..k]) && data[at..] == RenderAll(cmds[k..]) + rest
  {
    hide RenderAll;
    var front, back := RenderAll(cmds[..k]), RenderAll(cmds[k..]);
    TakeDrop(cmds, k);
    RenderAppend(cmds[..k], cmds[k..]);
    Regroup(front, back, rest);
    SplitBack(front, back + rest);
  }

  lemma HeadOfRendered(cmds: seq<Command>, rest: seq<byte>)
    requires cmds != []
    ensures First(RenderAll(cmds) + rest) == Found(cmds[0])
  {
    var more := RenderAll(cmds[1..]) + rest;
    assert RenderAll(cmds) + rest == Render(cmds[0]) + more;
    FirstOfRender(cmds[0], more);
  }

  /** data[..i] has been walked: it is the commands `done`. */
  ghost predicate Walked(data: seq<byte>, i: nat, done: seq<Command>) {
    && i <= |data|
    && RenderAll(done) == data[..i]
    && Lex(data) == Lexed(done + Lex(data[i..]).cmds, Lex(data[i..]).rest)
  }

  lemma WalkStarts(data: seq<byte>)
    ensures Walked(data, 0, [])
  {
    assert data[0..] == data;
    EmptyEnds(Lex(data).cmds);
  }

  lemma WalkOne(data: seq<byte>, i: nat, done: seq<Command>)
    requires Walked(data, i, done) && i < |data| && First(data[i..]).Found?
    ensures var c := First(data[i..]).c;
      Walked(data, i + |Render(c)|, done + [c]) && (done + [c])[..|done|] == done
  {
    var c := First(data[i..]).c;
    FirstIsPrefix(data[i..]);
    LexOne(data, i, done, c, i + |Render(c)|);
    RenderOne(data, i, done, c);
  }

  lemma LexOne(data: seq<byte>, i: nat, done: seq<Command>, c: Command, j: nat)
    requires Walked(data, i, done) && i < |data|
    requires First(data[i..]) == Found(c) && j == i + |Render(c)| <= |data|
    ensures Lex(data) == Lexed((done + [c]) + Lex(data[j..]).cmds, Lex(data[j..]).rest)
  {
    var here, tail := Lex(data[i..]), Lex(data[j..]);
    assert here == Lexed([c] + tail.cmds, tail.rest) by {
      assert data[i..][|Render(c)|..] == data[j..];
    }
    assert Lex(data) == Lexed(done + ([c] + tail.cmds), tail.rest);
    Regroup(done, [c], tail.cmds);
  }

  lemma RenderOne(data: seq<byte>, i: nat, done: seq<Command>, c: Command)
    requires i <= |data| && RenderAll(done) == data[..i] && Render(c) <= data[i..]
    ensures RenderAll(done + [c]) == data[..i + |Render(c)|]
  {
    RenderAppend(done, [c]);
    RenderSingle(c);
    assert data[i..][..|Render(c)|] == data[i..i + |Render(c)|];
  }

  lemma RenderSingle(c: Command)
    ensures RenderAll([c]) == Render(c)
  {
    assert [c][1..] == [];
    assert Render(c) + [] == Render(c);
  }

  lemma WalkStops(data: seq<byte>, i: nat, done: seq<Command>, good: Command -> bool)
    requires Walked(data, i, done) && All(done, good) && i < |data|
    requires First(data[i..]).Found? ==> !good(First(data[i..]).c)
    ensures StopAt(data, good) == i
  {
    CountWhileAppend(done, Lex(data[i..]).cmds, good);
    assert Lex(data).cmds[..|done|] == done;
  }

  lemma WalkEnds(data: seq<byte>, done: seq<Command>, good: Command -> bool)
    requires Walked(data, |data|, done) && All(done, good)
    ensures Lex(data) == Lexed(done, []) && StopAt(data, good) == |data|
  {
    assert done + [] == done;
    CountWhileAppend(done, [], good);
    assert done[..|done|] == done;
  }

  /** The walk takes everything exactly when the stream is good commands to the last byte. */
  lemma {:induction false} WalksAllIff(data: seq<byte>, good: Command -> bool)
    ensures StopAt(data, good) == |data| <==> Lex(data).rest == [] && All(Lex(data).cmds, good)
    ensures StopAt(data, good) == |data| ==> RenderAll(Lex(data).cmds) == data
  {
    var cmds := Lex(data).cmds;
    var k := CountWhile(cmds, good);
    StopHere(data, k);
    if k == |cmds| {
      assert cmds[..k] == cmds;
    } else {
      assert !good(cmds[k]);
    }
  }

  lemma LexRendered(cmds: seq<Command>)
    ensures Lex(RenderAll(cmds)) == Lexed(cmds, [])
  {
    assert RenderAll(cmds) + [] == RenderAll(cmds);
    LexComplete(cmds, []);
    assert cmds + [] == cmds;
  }
}
